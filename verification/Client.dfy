/** The credential client: error classes, correlation-matched replies on one connection, the cached
    connection that transport failures drop, and the bounded retry above it.

    The network is adversarial: each call is given what its environment does (how a dial ends,
    whether the write fails, which frames arrive, whether the deadline passes).
 */
module Client {
  import opened Bytes

  datatype Value =
    | Null
    | Bool(b: bool)
    | Number(n: int)
    | Text(s: Bytes)
    | Array(items: seq<Value>)
    | Object(members: map<Bytes, Value>)

  function Get(v: Value, key: Bytes): Option<Value> {
    if v.Object? && key in v.members then Some(v.members[key]) else None
  }

  function GetIn(v: Option<Value>, key: Bytes): Option<Value> {
    if v.None? then None else Get(v.value, key)
  }

  function OrElse(a: Option<Value>, b: Option<Value>): Option<Value> {
    if a.Some? then a else b
  }

  function AsText(v: Option<Value>): Option<Bytes> {
    if v.Some? && v.value.Text? then Some(v.value.s) else None
  }

  // ---------------------------------------------------------------- errors

  datatype Class =
    | AuthRequired | CredentialAbsent | Unauthorized | Permanent | Transient | ContextOverflow
    | InvalidResponse | Transport | Unavailable | Unclassified

  datatype Error = Error(class_: Class, code: Bytes)

  predicate Retryable(e: Error) {
    e.class_.Transient? || e.class_.Transport?
  }

  predicate IsTransport(e: Error) {
    e.class_.Transport? || e.class_.Unavailable?
  }

  const TRANSPORT := Error(Transport, "credential_transport")
  const INVALID_RESPONSE := Error(InvalidResponse, "credential_invalid_response")

  function ClassifierCode(c: Class): Bytes {
    match c
    case AuthRequired => "credential_auth_required"
    case CredentialAbsent => "credential_absent"
    case Unauthorized => "unauthorized"
    case Permanent => "credential_permanent"
    case Transient => "credential_transient"
    case ContextOverflow => "credential_context_overflow"
    case InvalidResponse => "credential_invalid_response"
    case Transport => "credential_transport"
    case Unavailable => "credential_resolver_unavailable"
    case Unclassified => "credential_unclassified"
  }

  function NamedClass(name: Option<Bytes>): Option<Class> {
    if name == Some("auth_required") then Some(AuthRequired)
    else if name == Some("credential_absent") then Some(CredentialAbsent)
    else if name == Some("unauthorized") then Some(Unauthorized)
    else if name == Some("permanent") then Some(Permanent)
    else if name == Some("transient") then Some(Transient)
    else if name == Some("context_overflow") then Some(ContextOverflow)
    else None
  }

  function CodeOf(v: Value): Option<Bytes> {
    AsText(OrElse(Get(v, "code"), GetIn(Get(v, "error"), "code")))
  }

  function ClassNameOf(v: Value): Option<Bytes> {
    var error := Get(v, "error");
    AsText(OrElse(OrElse(Get(v, "class"), GetIn(error, "class")), GetIn(GetIn(error, "data"), "class")))
  }

  /** The class of a refusal carried inside a reply. */
  function ClassifyErrorValue(v: Value): Error {
    var code := CodeOf(v);
    var class_ :=
      if code == Some("not_found") then Some(CredentialAbsent)
      else if code == Some("auth_required") then Some(AuthRequired)
      else NamedClass(ClassNameOf(v));
    if class_.Some? then Error(class_.value, ClassifierCode(class_.value))
    else Error(Unclassified, if code.Some? then code.value else "credential_unclassified")
  }

  /** Refusals inside a reply never look like a broken connection, and a missing record or an
      authentication refusal is never retried, whatever class the producer put beside it. */
  lemma RefusalClasses(v: Value)
    ensures
      var e := ClassifyErrorValue(v);
      && !IsTransport(e) && !e.class_.InvalidResponse?
      && (CodeOf(v) in {Some("not_found"), Some("auth_required")} ==> !Retryable(e))
      && (Retryable(e) ==> ClassNameOf(v) == Some("transient"))
  {
  }

  /** An error frame describes the route: only five codes survive a fresh connection. */
  function DecodeWireError(body: Option<Value>): Error {
    var code := AsText(GetIn(body, "code"));
    if code.None? then TRANSPORT
    else if code.value in ["unknown_method", "invalid_params", "invalid_request", "flow_scopes_unsupported",
                           "invalid_control_body"] then Error(Unclassified, code.value)
    else Error(Transport, code.value)
  }

  // ---------------------------------------------------------------- one connection

  datatype FrameType = ResponseFrame | ErrorFrame | OtherFrame

  datatype Route = Route(channel: nat, epoch: nat)

  /** A frame; `body` is `None` when it is not JSON. `answers` is the number of the request the
      peer means it for, which the client cannot see. */
  datatype Frame = Frame(route: Route, corr: u64, ty: FrameType, body: Option<Value>, answers: nat)

  predicate MatchesReply(f: Frame, route: Route, corr: u64) {
    f.route == route && f.corr == corr && !f.ty.OtherFrame?
  }

  /** The first frame that matches, or the end of what arrives. */
  function FirstReply(frames: seq<Frame>, route: Route, corr: u64): (k: nat)
    ensures k <= |frames|
    ensures forall i :: 0 <= i < k ==> !MatchesReply(frames[i], route, corr)
    ensures k < |frames| ==> MatchesReply(frames[k], route, corr)
  {
    if frames == [] || MatchesReply(frames[0], route, corr) then 0
    else
      var k := FirstReply(frames[1..], route, corr);
      assert forall i :: 1 <= i < |frames| ==> frames[i] == frames[1..][i - 1];
      k + 1
  }

  /** What a request yields, given the frames it reads. */
  function ReplyOutcome(frames: seq<Frame>, route: Route, corr: u64): Result<Value, Error> {
    var k := FirstReply(frames, route, corr);
    if k == |frames| then Err(TRANSPORT)
    else if frames[k].ty.ErrorFrame? then Err(DecodeWireError(frames[k].body))
    else if frames[k].body.None? then Err(INVALID_RESPONSE)
    else Ok(frames[k].body.value)
  }

  datatype Sent = Sent(route: Route, corr: u64)

  /** The correlation number of request `i` of a connection. */
  function CorrelationOf(i: nat): u64 {
    (1 + i) % U64
  }

  /** Distinct requests carry distinct numbers, within 2^64 of each other. */
  lemma CorrelationsDistinct(i: nat, j: nat)
    requires i < j < i + U64
    ensures CorrelationOf(i) != CorrelationOf(j)
  {
  }

  lemma CorrelationsIncrease(i: nat, j: nat)
    requires i < j && j + 1 < U64
    ensures CorrelationOf(i) < CorrelationOf(j)
  {
  }

  /** A peer that echoes: a reply carries the route and number of the request it answers, and
      only requests already sent are answered. It may be late, repeated or out of order. */
  predicate Echoes(f: Frame, sent: seq<Sent>) {
    !f.ty.OtherFrame? ==> f.answers < |sent| && sent[f.answers] == Sent(f.route, f.corr)
  }

  /** What a connection holds between requests. */
  datatype Link = Link(route: Route, nextCorr: u64, inbox: seq<Frame>)

  /** One request on a link: `write` is the failure of the write, if any; `arrivals` the frames
      that come in while the reply is awaited. */
  function RequestOutcome(link: Link, write: Option<Error>, arrivals: seq<Frame>): Result<Value, Error> {
    if write.Some? then Err(write.value) else ReplyOutcome(link.inbox + arrivals, link.route, link.nextCorr)
  }

  function LinkAfter(link: Link, write: Option<Error>, arrivals: seq<Frame>): Link {
    var next := (link.nextCorr + 1) % U64;
    if write.Some? then link.(nextCorr := next)
    else
      var frames := link.inbox + arrivals;
      var k := FirstReply(frames, link.route, link.nextCorr);
      Link(link.route, next, if k == |frames| then [] else frames[k + 1..])
  }

  class Connection {
    const id: nat
    const route: Route
    var nextCorr: u64
    var inbox: seq<Frame>
    ghost var sent: seq<Sent>

    function Current(): Link
      reads this
    {
      Link(route, nextCorr, inbox)
    }

    ghost predicate Valid()
      reads this
    {
      && nextCorr == CorrelationOf(|sent|)
      && forall i :: 0 <= i < |sent| ==> sent[i].corr == CorrelationOf(i)
    }

    /** A connection whose route-open request was number 0, on channel and epoch 0. */
    constructor (id: nat, route: Route, leftover: seq<Frame>)
      ensures Valid() && this.id == id && Current() == Link(route, 2, leftover)
      ensures sent == [Sent(Route(0, 0), 1)]
    {
      this.id := id;
      this.route := route;
      nextCorr := 2;
      inbox := leftover;
      sent := [Sent(Route(0, 0), 1)];
    }

    method NextCorrelation() returns (c: u64)
      modifies this`nextCorr
      ensures c == old(nextCorr) && nextCorr == (c + 1) % U64
    {
      c := nextCorr;
      nextCorr := (nextCorr + 1) % U64;
    }

    /** Reads until a reply to `corr` arrives; whatever came before it is skipped. */
    method ReadReply(corr: u64) returns (r: Result<Frame, Error>)
      modifies this`inbox
      ensures
        var k := FirstReply(old(inbox), route, corr);
        && (r.Ok? <==> k < |old(inbox)|)
        && (r.Ok? ==> r.value == old(inbox)[k] && inbox == old(inbox)[k + 1..])
        && (r.Err? ==> r.error == TRANSPORT && inbox == [])
    {
      ghost var all := inbox;
      ghost var skipped := 0;
      while inbox != []
        invariant skipped <= |all| && inbox == all[skipped..]
        invariant forall i :: 0 <= i < skipped ==> !MatchesReply(all[i], route, corr)
        decreases |inbox|
      {
        var frame := inbox[0];
        inbox := inbox[1..];
        skipped := skipped + 1;
        if MatchesReply(frame, route, corr) {
          return Ok(frame);
        }
      }
      r := Err(TRANSPORT);
    }

    /** One request. Against a peer that echoes, the reply read is the answer to this very
        request, whatever stale, repeated or foreign frames precede it. */
    method CredentialRequest(write: Option<Error>, arrivals: seq<Frame>)
      returns (r: Result<Value, Error>, ghost reply: Option<Frame>)
      requires Valid()
      modifies this
      ensures Valid() && sent == old(sent) + [Sent(route, old(nextCorr))]
      ensures r == RequestOutcome(old(Current()), write, arrivals)
      ensures Current() == LinkAfter(old(Current()), write, arrivals)
      ensures reply.Some? ==> reply.value in old(inbox) + arrivals
      ensures OwnReply(r, reply, sent)
    {
      hide DecodeWireError, FirstReply, MatchesReply, Echoes, OwnReply, CorrelationOf;
      reply := None;
      var corr := NextCorrelation();
      NextNumber(|sent|);
      sent := sent + [Sent(route, corr)];
      if write.Some? {
        NoReply(Err(write.value), sent);
        return Err(write.value), None;
      }
      inbox := inbox + arrivals;
      var read := ReadReply(corr);
      if read.Err? {
        NoReply(Err(TRANSPORT), sent);
        return Err(TRANSPORT), None;
      }
      reply := Some(read.value);
      if read.value.ty.ErrorFrame? {
        r := Err(DecodeWireError(read.value.body));
      } else if read.value.body.None? {
        r := Err(INVALID_RESPONSE);
      } else {
        r := Ok(read.value.body.value);
      }
      ReplyIsOwn(r, read.value, route, corr, sent);
    }
  }

  lemma NextNumber(n: nat)
    ensures CorrelationOf(n + 1) == (CorrelationOf(n) + 1) % U64
  {
  }

  lemma ReplyIsOwn(outcome: Result<Value, Error>, f: Frame, route: Route, corr: u64, sent: seq<Sent>)
    requires MatchesReply(f, route, corr) && (outcome.Ok? ==> f.body == Some(outcome.value))
    requires sent != [] && sent[|sent| - 1] == Sent(route, corr)
    requires forall k :: 0 <= k < |sent| ==> sent[k].corr == CorrelationOf(k)
    ensures OwnReply(outcome, Some(f), sent)
  {
    hide CorrelationOf;
    if Echoes(f, sent) && |sent| <= U64 {
      AnswersLast(sent, f.answers, |sent| - 1);
    }
  }

  /** A value comes from the body of the reply, and the reply of an echoing peer answers the last
      request sent. */
  predicate OwnReply(outcome: Result<Value, Error>, reply: Option<Frame>, sent: seq<Sent>) {
    && (outcome.Ok? ==> reply.Some? && reply.value.body == Some(outcome.value))
    && (reply.Some? && Echoes(reply.value, sent) && |sent| <= U64 ==> reply.value.answers == |sent| - 1)
  }

  lemma AnswersLast(sent: seq<Sent>, i: nat, last: nat)
    requires |sent| <= U64 && i < |sent| && last == |sent| - 1 && sent[i].corr == sent[last].corr
    requires forall k :: 0 <= k < |sent| ==> sent[k].corr == CorrelationOf(k)
    ensures i == last
  {
    if i < last {
      CorrelationsDistinct(i, last);
    }
  }

  // ---------------------------------------------------------------- the cached connection

  datatype Dial = Dialed(route: Route, leftover: seq<Frame>) | DialFailed(error: Error)

  /** What the environment does during one call. */
  datatype Turn = Turn(dial: Dial, write: Option<Error>, arrivals: seq<Frame>, deadline: bool)

  /** The connection a turn runs on: the cached one, or the one it dials. */
  function Ready(link: Option<Link>, dial: Dial): Option<Link> {
    if link.Some? then link
    else
      match dial
      case Dialed(route, leftover) => Some(Link(route, 2, leftover))
      case DialFailed(_) => None
  }

  /** What a call yields, given what is cached and what the environment does. */
  function TurnOutcome(link: Option<Link>, turn: Turn): Result<Value, Error> {
    var ready := Ready(link, turn.dial);
    if ready.None? then Err(turn.dial.error)
    else if turn.deadline then Err(TRANSPORT)
    else RequestOutcome(ready.value, turn.write, turn.arrivals)
  }

  /** What is cached afterwards. */
  function TurnLink(link: Option<Link>, turn: Turn): Option<Link> {
    var ready, outcome := Ready(link, turn.dial), TurnOutcome(link, turn);
    if ready.None? || (outcome.Err? && IsTransport(outcome.error)) then None
    else Some(LinkAfter(ready.value, turn.write, turn.arrivals))
  }

  /** The same over a run of turns: what is cached before turn `i`, and what turn `i` yields. */
  function LinkBefore(link: Option<Link>, turns: nat -> Turn, i: nat): Option<Link> {
    if i == 0 then link else TurnLink(LinkBefore(link, turns, i - 1), turns(i - 1))
  }

  function OutcomeAt(link: Option<Link>, turns: nat -> Turn, i: nat): Result<Value, Error> {
    TurnOutcome(LinkBefore(link, turns, i), turns(i))
  }

  /** What an observer of the connections sees. A call shows its reply and all requests sent on
      its connection so far. */
  datatype Event =
    | Connected(id: nat)
    | NotConnected(error: Error)
    | Called(id: nat, outcome: Result<Value, Error>, reply: Option<Frame>, sent: seq<Sent>)

  predicate Broke(e: Event) {
    e.Called? && e.outcome.Err? && IsTransport(e.outcome.error)
  }

  /** The connection in the cache after a log, and how many were ever made. */
  function Cached(log: seq<Event>): Option<nat> {
    if log == [] then None
    else
      var e := log[|log| - 1];
      if e.Connected? then Some(e.id)
      else if Broke(e) then None
      else Cached(log[..|log| - 1])
  }

  function Made(log: seq<Event>): nat {
    if log == [] then 0 else Made(log[..|log| - 1]) + (if log[|log| - 1].Connected? then 1 else 0)
  }

  /** What the calls of a log came to, failed dials included. */
  function Outcomes(log: seq<Event>): seq<Result<Value, Error>> {
    if log == [] then []
    else Outcomes(log[..|log| - 1]) + OutcomeOf(log[|log| - 1])
  }

  function OutcomeOf(e: Event): seq<Result<Value, Error>> {
    match e
    case Connected(_) => []
    case NotConnected(error) => [Err(error)]
    case Called(_, outcome, _, _) => [outcome]
  }

  predicate LegalAt(log: seq<Event>, i: nat)
    requires i < |log|
  {
    var before := log[..i];
    match log[i]
    case Connected(id) => Cached(before).None? && id == Made(before)
    case NotConnected(_) => Cached(before).None?
    case Called(id, outcome, reply, sent) => Cached(before) == Some(id) && OwnReply(outcome, reply, sent)
  }

  ghost predicate Legal(log: seq<Event>) {
    forall i :: 0 <= i < |log| ==> LegalAt(log, i)
  }

  lemma LegalPush(log: seq<Event>, e: Event)
    requires Legal(log) && LegalAt(log + [e], |log|)
    ensures Legal(log + [e])
  {
    forall i | 0 <= i < |log| ensures LegalAt(log + [e], i) {
      assert (log + [e])[..i] == log[..i];
      assert LegalAt(log, i);
    }
  }

  /** What a log shows of a dial. */
  function Dialling(link: Option<Link>, dial: Dial, made: nat): seq<Event> {
    if link.Some? then []
    else
      match dial
      case Dialed(_, _) => [Connected(made)]
      case DialFailed(error) => [NotConnected(error)]
  }

  lemma FailedDial(link: Option<Link>, dial: Dial, made: nat)
    requires Ready(link, dial).None?
    ensures Dialling(link, dial, made) == [NotConnected(dial.error)]
  {
  }

  lemma TransportBreaks()
    ensures IsTransport(TRANSPORT)
  {
  }

  class Target {
    var consumer: Connection?
    var made: nat
    ghost var log: seq<Event>

    ghost predicate Valid()
      reads this, consumer
    {
      && Legal(log) && made == Made(log)
      && Cached(log) == (if consumer == null then None else Some(consumer.id))
      && (consumer != null ==> consumer.Valid())
    }

    function Current(): Option<Link>
      reads this, consumer
    {
      if consumer == null then None else Some(consumer.Current())
    }

    constructor ()
      ensures Valid() && log == [] && Current() == None
    {
      consumer := null;
      made := 0;
      log := [];
    }

    /** Dials exactly when nothing is cached. */
    method ConnectIfNeeded(dial: Dial) returns (r: Result<(), Error>)
      requires Valid()
      modifies this
      ensures Valid() && Current() == Ready(old(Current()), dial)
      ensures r == if Current().Some? then Ok(()) else Err(dial.error)
      ensures log == old(log) + Dialling(old(Current()), dial, old(made))
      ensures Outcomes(log) == Outcomes(old(log)) + (if r.Ok? then [] else [Err(dial.error)])
      ensures consumer == old(consumer) || fresh(consumer)
    {
      hide Legal, LegalAt, Outcomes, OwnReply;
      if consumer == null {
        match dial
        case DialFailed(error) =>
          PushFacts(log, NotConnected(error));
          log := log + [NotConnected(error)];
          return Err(error);
        case Dialed(route, leftover) =>
          PushFacts(log, Connected(made));
          log := log + [Connected(made)];
          consumer := new Connection(made, route, leftover);
          made := made + 1;
      }
      r := Ok(());
    }

    /** Ends a call: logs it, and drops the connection exactly when the outcome is a transport error. */
    method ClearFailedTransport(result: Result<Value, Error>, ghost reply: Option<Frame>)
      requires Valid() && consumer != null && OwnReply(result, reply, consumer.sent)
      modifies this
      ensures Valid() && (consumer == old(consumer) || consumer == null)
      ensures Current() == if result.Err? && IsTransport(result.error) then None else old(Current())
      ensures log == old(log) + [Called(old(consumer.id), result, reply, old(consumer.sent))]
      ensures Outcomes(log) == Outcomes(old(log)) + [result]
    {
      hide Legal, LegalAt, Outcomes, OwnReply;
      PushFacts(log, Called(consumer.id, result, reply, consumer.sent));
      log := log + [Called(consumer.id, result, reply, consumer.sent)];
      if result.Err? && IsTransport(result.error) {
        consumer := null;
      }
    }

    /** One call: dial only if nothing is cached, run the request under the deadline, and drop the
        connection exactly when the outcome is a transport error. */
    method Call(turn: Turn) returns (r: Result<Value, Error>)
      requires Valid()
      modifies this, consumer
      ensures Valid() && old(log) < log
      ensures r == TurnOutcome(old(Current()), turn) && Current() == TurnLink(old(Current()), turn)
      ensures Outcomes(log) == Outcomes(old(log)) + [r]
      ensures OutcomeOf(log[|log| - 1]) == [r]
      ensures consumer == old(consumer) || consumer == null || fresh(consumer)
    {
      hide Legal, LegalAt, Outcomes, OwnReply, Made, Cached, RequestOutcome, LinkAfter, Ready, IsTransport;
      var connected := ConnectIfNeeded(turn.dial);
      if connected.Err? {
        FailedDial(old(Current()), turn.dial, old(made));
        return Err(connected.error);
      }
      ghost var reply;
      r, reply := consumer.CredentialRequest(turn.write, turn.arrivals);
      if turn.deadline {
        r, reply := Err(TRANSPORT), None;
        NoReply(r, consumer.sent);
        TransportBreaks();
      }
      ClearFailedTransport(r, reply);
    }

    /** A resolve: attempt `i` is what turn `i` yields, decoded; the result is the first success,
        the first error that is not retryable, or the last error, after at most
        `transientRetries + 1` attempts. `decode` reads a reply without a refusal. A success was
        decoded from the last call's own reply. */
    method Resolve<T>(turns: nat -> Turn, transientRetries: nat, decode: Value -> Option<T>)
      returns (r: Result<T, Error>, attempts: seq<Result<T, Error>>)
      requires Valid()
      modifies this, consumer
      ensures Valid() && old(log) <= log
      ensures 1 <= |attempts| <= transientRetries + 1 && r == attempts[|attempts| - 1]
      ensures forall i :: 0 <= i < |attempts| ==>
        attempts[i] == Decoded(OutcomeAt(old(Current()), turns, i), decode)
      ensures forall i :: 0 <= i < |attempts| - 1 ==> attempts[i].Err? && Retryable(attempts[i].error)
      ensures r.Err? && Retryable(r.error) ==> |attempts| == transientRetries + 1
      ensures Current() == LinkBefore(old(Current()), turns, |attempts|)
      ensures Outcomes(log) == Outcomes(old(log)) + OutcomesOf(old(Current()), turns, |attempts|)
      ensures r.Ok? ==> log != [] && Supports(log[|log| - 1], r, decode)
    {
      hide Legal, LegalAt, Outcomes, OwnReply, TurnOutcome, TurnLink, DecodeReply, Made, Cached, LinkBefore,
           OutcomeAt, OutcomesOf, Decoded, Retryable, Supports, OutcomeOf;
      ghost var start := Current();
      FirstTurn(start, turns);
      attempts := [];
      var retries := 0;
      while true
        invariant Valid() && old(log) <= log
        invariant consumer == old(consumer) || consumer == null || fresh(consumer)
        invariant retries == |attempts| <= transientRetries
        invariant Current() == LinkBefore(start, turns, retries)
        invariant Outcomes(log) == Outcomes(old(log)) + OutcomesOf(start, turns, retries)
        invariant forall i :: 0 <= i < |attempts| ==> attempts[i] == Decoded(OutcomeAt(start, turns, i), decode)
        invariant forall i :: 0 <= i < |attempts| ==> attempts[i].Err? && Retryable(attempts[i].error)
        decreases transientRetries - retries
      {
        NextTurn(start, turns, retries);
        var value := Call(turns(retries));
        OutcomesPush(Outcomes(old(log)), start, turns, retries);
        var result := Decoded(value, decode);
        attempts := attempts + [result];
        if result.Err? && Retryable(result.error) && retries < transientRetries {
          retries := retries + 1;
        } else {
          if result.Ok? {
            LastCallSupports(log, value, result, decode);
          }
          return result, attempts;
        }
      }
    }
  }

  function OutcomesOf(link: Option<Link>, turns: nat -> Turn, n: nat): seq<Result<Value, Error>> {
    if n == 0 then [] else OutcomesOf(link, turns, n - 1) + [OutcomeAt(link, turns, n - 1)]
  }

  lemma FirstTurn(link: Option<Link>, turns: nat -> Turn)
    ensures LinkBefore(link, turns, 0) == link && OutcomesOf(link, turns, 0) == []
  {
  }

  lemma NextTurn(link: Option<Link>, turns: nat -> Turn, i: nat)
    ensures OutcomeAt(link, turns, i) == TurnOutcome(LinkBefore(link, turns, i), turns(i))
    ensures LinkBefore(link, turns, i + 1) == TurnLink(LinkBefore(link, turns, i), turns(i))
  {
    hide TurnOutcome, TurnLink;
  }

  lemma OutcomesPush(done: seq<Result<Value, Error>>, link: Option<Link>, turns: nat -> Turn, n: nat)
    ensures done + OutcomesOf(link, turns, n) + [OutcomeAt(link, turns, n)] == done + OutcomesOf(link, turns, n + 1)
  {
    hide OutcomeAt;
  }

  lemma NoReply(outcome: Result<Value, Error>, sent: seq<Sent>)
    requires outcome.Err?
    ensures OwnReply(outcome, None, sent)
  {
  }

  /** The event is a call whose own reply decodes to the result. */
  ghost predicate Supports<T>(e: Event, r: Result<T, Error>, decode: Value -> Option<T>) {
    && e.Called? && e.outcome.Ok? && DecodeReply(e.outcome.value, decode) == r
    && OwnReply(e.outcome, e.reply, e.sent)
  }

  lemma LastCallSupports<T>(
    log: seq<Event>, value: Result<Value, Error>, r: Result<T, Error>, decode: Value -> Option<T>)
    requires Legal(log) && log != [] && OutcomeOf(log[|log| - 1]) == [value] && r == Decoded(value, decode) && r.Ok?
    ensures Supports(log[|log| - 1], r, decode)
  {
    hide OwnReply, DecodeReply;
    assert LegalAt(log, |log| - 1);
    assert OutcomeOf(log[|log| - 1])[0] == value;
  }

  function Decoded<T>(outcome: Result<Value, Error>, decode: Value -> Option<T>): Result<T, Error> {
    if outcome.Err? then Err(outcome.error) else DecodeReply(outcome.value, decode)
  }

  /** A reply's payload, or the refusal it carries. */
  function DecodeReply<T>(value: Value, decode: Value -> Option<T>): Result<T, Error> {
    var result := if Get(value, "result").Some? then Get(value, "result").value else value;
    if Get(result, "error").Some? then Err(ClassifyErrorValue(result))
    else if decode(result).None? then Err(INVALID_RESPONSE)
    else Ok(decode(result).value)
  }

  lemma PushFacts(log: seq<Event>, e: Event)
    requires Legal(log)
    requires
      match e
      case Connected(id) => Cached(log).None? && id == Made(log)
      case NotConnected(_) => Cached(log).None?
      case Called(id, outcome, reply, sent) => Cached(log) == Some(id) && OwnReply(outcome, reply, sent)
    ensures Legal(log + [e])
    ensures Made(log + [e]) == Made(log) + (if e.Connected? then 1 else 0)
    ensures Outcomes(log + [e]) == Outcomes(log) + OutcomeOf(e)
    ensures Cached(log + [e]) == if e.Connected? then Some(e.id) else if Broke(e) then None else Cached(log)
  {
    assert (log + [e])[..|log|] == log;
    LegalPush(log, e);
  }

  // ---------------------------------------------------------------- what every log shows

  lemma {:induction false} CachedBelowMade(log: seq<Event>)
    requires Legal(log)
    ensures Cached(log).Some? ==> Cached(log).value < Made(log)
  {
    if log != [] {
      LegalPrefix(log, |log| - 1);
      CachedBelowMade(log[..|log| - 1]);
      assert LegalAt(log, |log| - 1);
    }
  }

  lemma LegalPrefix(log: seq<Event>, k: nat)
    requires Legal(log) && k <= |log|
    ensures Legal(log[..k])
  {
    forall i | 0 <= i < k ensures LegalAt(log[..k], i) {
      assert log[..k][..i] == log[..i];
      assert LegalAt(log, i);
    }
  }

  /** A connection that broke is not in the cache again. */
  lemma {:induction false} BrokenStaysOut(log: seq<Event>, i: nat, k: nat)
    requires Legal(log) && i < k <= |log| && Broke(log[i])
    ensures Cached(log[..k]) != Some(log[i].id) && log[i].id < Made(log[..k])
    decreases k
  {
    assert log[..k][..k - 1] == log[..k - 1];
    assert LegalAt(log, k - 1);
    if k == i + 1 {
      LegalPrefix(log, i);
      CachedBelowMade(log[..i]);
    } else {
      BrokenStaysOut(log, i, k - 1);
    }
  }

  /** A connection that produced a transport error is never used again. */
  lemma BrokenNeverUsedAgain(log: seq<Event>, i: nat, j: nat)
    requires Legal(log) && i < j < |log| && Broke(log[i]) && log[j].Called?
    ensures log[j].id != log[i].id
  {
    BrokenStaysOut(log, i, j);
    assert LegalAt(log, j);
  }

  /** After any other outcome, a refusal inside a reply included, the next call uses the same
      connection: no dial comes between. */
  lemma OtherOutcomesKeepConnection(log: seq<Event>, i: nat)
    requires Legal(log) && i + 1 < |log| && log[i].Called? && !Broke(log[i])
    ensures log[i + 1].Called? && log[i + 1].id == log[i].id
  {
    assert log[..i + 1][..i] == log[..i];
    assert LegalAt(log, i) && LegalAt(log, i + 1);
  }

  lemma {:induction false} LiveUntilBroken(log: seq<Event>, i: nat, k: nat)
    requires Legal(log) && i < k <= |log| && log[i].Connected?
    requires forall m :: i < m < k ==> !(Broke(log[m]) && log[m].id == log[i].id)
    ensures Cached(log[..k]) == Some(log[i].id)
    decreases k
  {
    assert log[..k][..k - 1] == log[..k - 1];
    assert LegalAt(log, k - 1);
    if k > i + 1 {
      LiveUntilBroken(log, i, k - 1);
    }
  }

  /** A dial happens only after every earlier connection broke. */
  lemma DialOnlyAfterBreak(log: seq<Event>, i: nat, j: nat)
    requires Legal(log) && i < j < |log| && log[i].Connected? && !log[j].Called?
    ensures exists m :: i < m < j && Broke(log[m]) && log[m].id == log[i].id
  {
    assert LegalAt(log, j);
    if forall m :: i < m < j ==> !(Broke(log[m]) && log[m].id == log[i].id) {
      LiveUntilBroken(log, i, j);
    }
  }

  /** A refusal inside a reply is no transport error, so it leaves the connection in place even
      when the resolve above it fails. */
  lemma RefusedReplyKeepsConnection<T>(link: Option<Link>, turn: Turn, decode: Value -> Option<T>)
    requires TurnOutcome(link, turn).Ok?
    ensures TurnLink(link, turn).Some? && TurnLink(link, turn).value.route == Ready(link, turn.dial).value.route
    ensures
      var result := Decoded(TurnOutcome(link, turn), decode);
      result.Err? ==> !IsTransport(result.error)
  {
    var value := TurnOutcome(link, turn).value;
    RefusalClasses(if Get(value, "result").Some? then Get(value, "result").value else value);
  }
}
