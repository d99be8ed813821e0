/** The crash-safe refresh of one OAuth credential: a durable intent before the provider is called,
    a fenced commit after it, and reconciliation at boot. A provider that rotates refresh tokens
    may revoke the whole login when a spent token is presented again, so the property that matters
    is which tokens can ever be presented twice.

    Steps interleave freely: crashes and lease handovers at any point, failed commits, reports,
    operator repairs and replacements. Store writes of an instance that lost the lease are fenced
    off, so such an instance only survives here as a stray request that may still arrive.
 */
module RefreshEngine {
  import opened Bytes

  datatype Row = Row(version: nat, token: nat, active: bool)

  datatype Intent = Intent(version: nat, token: nat)

  datatype Answer =
    | Rotated(token: nat)
    | EmptyAccess
    | Failed
    | InvalidGrant

  /** How far the holder of the credential's lock has come. */
  datatype Stage = Admitted | Sent | Answered(answer: Answer)

  datatype Exchange = Exchange(version: nat, token: nat, stage: Stage)

  /** What an operator stores: a login just minted, or a file of any age. The token of a file may
      be one this vault has held before, or one it never saw that another custodian has spent. */
  datatype Material = NewLogin | OldFile(token: nat)

  /** An adapter's optional validity check that does not rotate. */
  datatype Check = NoCheck | Valid | Invalid | Unavailable

  /** `live`: the one token the provider still takes. `spent`: tokens it has exchanged. `strays`:
      requests of lost instances and abandoned exchanges that have not arrived. `doubtful`: tokens
      put or left in service by a guess that was wrong. `reused`: tokens presented when already
      spent. `commits`: the versions refreshed from, in order. */
  datatype World = World(
    row: Row,
    intent: Option<Intent>,
    running: Option<Exchange>,
    booted: bool,
    live: nat,
    spent: set<nat>,
    nextToken: nat,
    strays: multiset<nat>,
    doubtful: set<nat>,
    reused: set<nat>,
    commits: seq<nat>)

  /** `Report` invalidates a version at any moment, lock or no lock. Reports on refreshable records
      only mark them stale, so this allows more than the vault does. */
  datatype Step =
    | Admit
    | OpenIntent
    | Call(arrives: bool, emptyAccess: bool, replyLost: bool)
    | Finish
    | CommitFails
    | StrayArrives(token: nat)
    | Crash
    | Abandon
    | Reconcile(check: Check)
    | Replace(material: Material)
    | Report(version: nat)
    | Reactivate

  function Start(): World {
    World(Row(1, 0, true), None, None, true, 0, {}, 1, multiset{}, {}, {}, [])
  }

  /** The stored token may be served or refreshed: the record is active and no intent is open. */
  predicate Exposed(w: World) {
    w.row.active && w.intent.None?
  }

  predicate Enabled(w: World, step: Step) {
    match step
    case Admit => w.booted && w.running.None? && Exposed(w)
    case OpenIntent => w.running.Some? && w.running.value.stage.Admitted?
    case Call(_, _, _) => w.running.Some? && w.running.value.stage.Sent?
    case Finish => w.running.Some? && w.running.value.stage.Answered?
    case CommitFails => w.running.Some? && w.running.value.stage.Answered? && w.running.value.stage.answer.Rotated?
    case StrayArrives(token) => token in w.strays
    case Crash => true
    case Abandon => w.running.Some?
    case Reconcile(_) => !w.booted
    case Replace(material) => w.running.None? && (material.OldFile? ==> material.token <= w.nextToken)
    case Report(_) => w.booted
    case Reactivate => w.running.None? && !w.row.active
  }

  /** A token reaches the provider: exchanged if it is the live one, otherwise refused. */
  function Presented(w: World, token: nat): World {
    if token in w.spent then w.(reused := w.reused + {token})
    else if token == w.live then
      w.(spent := w.spent + {token}, live := w.nextToken, nextToken := w.nextToken + 1)
    else w
  }

  function AnswerTo(w: World, token: nat, emptyAccess: bool, replyLost: bool): Answer {
    if replyLost then Failed
    else if token in w.spent || token != w.live then InvalidGrant
    else if emptyAccess then EmptyAccess
    else Rotated(w.nextToken)
  }

  /** Whether a token may be left in service: the provider still takes it and nothing on its way can
      spend it. The vault cannot see this. */
  predicate Right(w: World, token: nat) {
    token == w.live && token !in w.spent && token !in w.strays
  }

  function Doubted(w: World, token: nat): set<nat> {
    if Right(w, token) then w.doubtful else w.doubtful + {token}
  }

  function Invalidated(w: World): World {
    w.(row := w.row.(active := false), intent := None)
  }

  function Finished(w: World, e: Exchange): World
    requires e.stage.Answered?
  {
    var current := w.row.version == e.version && w.row.active;
    match e.stage.answer
    case Rotated(token) =>
      if current then w.(row := Row(e.version + 1, token, true), intent := None, commits := w.commits + [e.version])
      else w
    case EmptyAccess => w.(intent := None, doubtful := Doubted(w, e.token))
    case Failed => w.(intent := None, doubtful := Doubted(w, e.token))
    case InvalidGrant => if current then Invalidated(w) else w
  }

  /** The decision table for a dangling intent; it never calls the provider's rotating endpoint. */
  function Reconciled(w: World, check: Check): World {
    if w.intent.None? then w
    else if !w.row.active then w.(intent := None)
    else if w.row.token != w.intent.value.token then Invalidated(w)
    else
      match check
      case NoCheck => Invalidated(w)
      case Valid => w.(intent := None, doubtful := Doubted(w, w.row.token))
      case Invalid => Invalidated(w)
      case Unavailable => w.(row := w.row.(active := false))
  }

  /** Whatever is stored becomes active and clears the intent. */
  function Replaced(w: World, material: Material): World {
    match material
    case NewLogin =>
      w.(row := Row(w.row.version + 1, w.nextToken, true), intent := None, live := w.nextToken,
         nextToken := w.nextToken + 1)
    case OldFile(token) =>
      var known := token < w.nextToken;
      w.(row := Row(w.row.version + 1, token, true), intent := None, doubtful := Doubted(w, token),
         spent := if known then w.spent else w.spent + {token},
         nextToken := if known then w.nextToken else token + 1)
  }

  /** The exchange is lost; a request it sent may still arrive. */
  function Dropped(w: World): World {
    w.(running := None, strays := Pending(w) - Unsent(w))
  }

  function Apply(w: World, step: Step): World
    requires Enabled(w, step)
  {
    match step
    case Admit => w.(running := Some(Exchange(w.row.version, w.row.token, Admitted)))
    case OpenIntent =>
      var e := w.running.value;
      w.(intent := Some(Intent(e.version, e.token)), running := Some(e.(stage := Sent)))
    case Call(arrives, emptyAccess, replyLost) =>
      var e := w.running.value;
      if arrives then
        Presented(w, e.token).(
        running := Some(e.(stage := Answered(AnswerTo(w, e.token, emptyAccess, replyLost)))))
      else w.(running := Some(e.(stage := Answered(Failed))))
    case Finish => Finished(w.(running := None), w.running.value)
    case CommitFails => w.(running := None)
    case StrayArrives(token) => Presented(w.(strays := w.strays - multiset{token}), token)
    case Crash => Dropped(w).(booted := false)
    case Abandon => Dropped(w)
    case Reconcile(check) => Reconciled(w.(booted := true), check)
    case Replace(material) => Replaced(w, material)
    case Report(version) => if w.row.version == version && w.row.active then Invalidated(w) else w
    case Reactivate => w.(row := w.row.(active := true), doubtful := Doubted(w, w.row.token))
  }

  ghost predicate Possible(steps: seq<Step>)
    decreases |steps|, 0
  {
    steps == [] ||
    (Possible(steps[..|steps| - 1]) && Enabled(After(steps[..|steps| - 1]), steps[|steps| - 1]))
  }

  ghost function After(steps: seq<Step>): World
    requires Possible(steps)
    decreases |steps|, 1
  {
    if steps == [] then Start() else Apply(After(steps[..|steps| - 1]), steps[|steps| - 1])
  }

  // ---------------------------------------------------------------- the invariant

  function Unsent(w: World): multiset<nat> {
    if w.running.Some? && w.running.value.stage.Admitted? then multiset{w.running.value.token} else multiset{}
  }

  /** Requests that may still reach the provider, with their tokens. */
  function Pending(w: World): multiset<nat> {
    var open := w.running.Some? && !w.running.value.stage.Answered?;
    w.strays + (if open then multiset{w.running.value.token} else multiset{})
  }

  /** A token nobody doubts: at most one request with it can still arrive, and only while it is
      unspent; in service it is the live one, and only the lock holder may be about to send it. */
  ghost predicate Guarded(w: World, token: nat) {
    && Pending(w)[token] <= 1
    && (token in Pending(w) ==> token !in w.spent)
    && (Exposed(w) && w.row.token == token ==>
          token == w.live && token !in w.spent && Pending(w)[token] == Unsent(w)[token])
  }

  ghost predicate TokensKnown(w: World) {
    && w.row.token < w.nextToken && w.live < w.nextToken
    && (forall t :: t in w.spent ==> t < w.nextToken)
    && (forall t :: t in w.strays ==> t < w.nextToken)
  }

  /** What the lock keeps for its holder: the row it read is still the row, and a token it was
      handed is known to nobody else. */
  ghost predicate Held(w: World) {
    w.running.Some? ==>
      var e := w.running.value;
      && w.booted && w.row.version == e.version && w.row.token == e.token
      && (e.stage.Admitted? || !Exposed(w))
      && (e.stage.Answered? && e.stage.answer.Rotated? ==>
            var t := e.stage.answer.token;
            t == w.live && t !in w.spent && t !in w.strays && t != w.row.token)
  }

  ghost predicate CommitsIncrease(w: World) {
    && (forall i :: 0 <= i < |w.commits| ==> w.commits[i] < w.row.version)
    && (forall i, j :: 0 <= i < j < |w.commits| ==> w.commits[i] < w.commits[j])
  }

  ghost predicate Invariant(w: World) {
    && TokensKnown(w) && Held(w) && CommitsIncrease(w)
    && (forall t :: t !in w.doubtful ==> Guarded(w, t))
    && w.reused <= w.doubtful
  }

  lemma AdmitKeepsInvariant(w: World)
    requires Invariant(w) && Enabled(w, Admit)
    ensures Invariant(Apply(w, Admit))
  {
  }

  lemma OpenIntentKeepsInvariant(w: World)
    requires Invariant(w) && Enabled(w, OpenIntent)
    ensures Invariant(Apply(w, OpenIntent))
  {
  }

  lemma CallKeepsInvariant(w: World, arrives: bool, emptyAccess: bool, replyLost: bool)
    requires Invariant(w) && Enabled(w, Call(arrives, emptyAccess, replyLost))
    ensures Invariant(Apply(w, Call(arrives, emptyAccess, replyLost)))
  {
    hide Guarded, Pending, Unsent;
    var next := Apply(w, Call(arrives, emptyAccess, replyLost));
    SentIsPending(w);
    forall t | t !in next.doubtful
      ensures Guarded(next, t)
    {
      CallGuards(w, arrives, emptyAccess, replyLost, t);
    }
  }

  /** A token on its way is unspent, if nobody doubts it. */
  lemma SentIsPending(w: World)
    requires Invariant(w) && w.running.Some? && w.running.value.stage.Sent?
    ensures w.running.value.token in w.doubtful || w.running.value.token !in w.spent
  {
    assert w.running.value.token !in w.doubtful ==> Guarded(w, w.running.value.token);
  }

  lemma CallGuards(w: World, arrives: bool, emptyAccess: bool, replyLost: bool, t: nat)
    requires TokensKnown(w) && Held(w) && Guarded(w, t) && Enabled(w, Call(arrives, emptyAccess, replyLost))
    ensures Guarded(Apply(w, Call(arrives, emptyAccess, replyLost)), t)
  {
    var next, token := Apply(w, Call(arrives, emptyAccess, replyLost)), w.running.value.token;
    assert Pending(next)[t] == Pending(w)[t] - (if t == token then 1 else 0);
    assert Unsent(next) == Unsent(w) == multiset{};
  }

  lemma FinishKeepsInvariant(w: World)
    requires Invariant(w) && Enabled(w, Finish)
    ensures Invariant(Apply(w, Finish))
  {
    hide Guarded, Pending, Unsent;
    var next := Apply(w, Finish);
    forall t | t !in next.doubtful
      ensures Guarded(next, t)
    {
      FinishGuards(w, t);
    }
  }

  lemma FinishGuards(w: World, t: nat)
    requires TokensKnown(w) && Held(w) && Guarded(w, t) && Enabled(w, Finish) && t !in Apply(w, Finish).doubtful
    ensures Guarded(Apply(w, Finish), t)
  {
    var next := Apply(w, Finish);
    assert Pending(next) == Pending(w) && Unsent(next) == Unsent(w) == multiset{};
  }

  lemma CommitFailsKeepsInvariant(w: World)
    requires Invariant(w) && Enabled(w, CommitFails)
    ensures Invariant(Apply(w, CommitFails))
  {
  }

  /** A stray's token, once it is about to arrive: if nobody doubts it, it is unspent, out of
      service, and carried by no other request. */
  ghost predicate Arriving(w: World, token: nat) {
    && token < w.nextToken
    && (token !in w.doubtful ==>
          token !in w.spent && Pending(w)[token] == 0 && !(Exposed(w) && w.row.token == token))
    && (w.running.Some? && w.running.value.stage.Answered? ==>
          w.running.value.stage.answer != Rotated(token))
  }

  lemma StrayLeaves(w: World, token: nat)
    requires Invariant(w) && token in w.strays
    ensures Invariant(w.(strays := w.strays - multiset{token}))
    ensures Arriving(w.(strays := w.strays - multiset{token}), token)
  {
    hide Guarded, Pending, Unsent;
    var next := w.(strays := w.strays - multiset{token});
    forall t | t !in next.doubtful
      ensures Guarded(next, t)
    {
      LeavingGuards(w, token, t);
    }
    if token !in w.doubtful {
      LastToArrive(w, token);
    }
  }

  lemma LeavingGuards(w: World, token: nat, t: nat)
    requires Guarded(w, t) && token in w.strays
    ensures Guarded(w.(strays := w.strays - multiset{token}), t)
  {
    var next := w.(strays := w.strays - multiset{token});
    assert Pending(next)[t] == Pending(w)[t] - (if t == token then 1 else 0) && Unsent(next) == Unsent(w);
    assert t == token ==> Pending(w)[t] >= 1 + Unsent(w)[t];
  }

  lemma LastToArrive(w: World, token: nat)
    requires Guarded(w, token) && token in w.strays
    ensures token !in w.spent && !(Exposed(w) && w.row.token == token)
    ensures Pending(w.(strays := w.strays - multiset{token}))[token] == 0
  {
    assert Pending(w)[token] >= 1 + Unsent(w)[token];
  }

  lemma ArrivalKeepsInvariant(w: World, token: nat)
    requires Invariant(w) && Arriving(w, token)
    ensures Invariant(Presented(w, token))
  {
  }

  lemma StrayArrivesKeepsInvariant(w: World, token: nat)
    requires Invariant(w) && Enabled(w, StrayArrives(token))
    ensures Invariant(Apply(w, StrayArrives(token)))
  {
    hide Invariant, Arriving, Presented;
    StrayLeaves(w, token);
    ArrivalKeepsInvariant(w.(strays := w.strays - multiset{token}), token);
  }

  lemma CrashKeepsInvariant(w: World)
    requires Invariant(w) && Enabled(w, Crash)
    ensures Invariant(Apply(w, Crash))
  {
    hide Guarded, Pending, Unsent;
    var next := Apply(w, Crash);
    StraysKnown(w);
    forall t | t !in next.doubtful
      ensures Guarded(next, t)
    {
      DropGuards(w, t);
    }
  }

  /** An exchange that is dropped while its instance lives on leaves the same behind. */
  lemma AbandonKeepsInvariant(w: World)
    requires Invariant(w) && Enabled(w, Abandon)
    ensures Invariant(Apply(w, Abandon))
  {
    hide Guarded, Pending, Unsent;
    StraysKnown(w);
    forall t | t !in Dropped(w).doubtful
      ensures Guarded(Dropped(w), t)
    {
      DropGuards(w, t);
    }
  }

  lemma StraysKnown(w: World)
    requires TokensKnown(w) && Held(w)
    ensures forall t :: t in Pending(w) - Unsent(w) ==> t < w.nextToken
  {
  }

  lemma DropGuards(w: World, t: nat)
    requires Guarded(w, t)
    ensures Guarded(Dropped(w), t) && Guarded(Dropped(w).(booted := false), t)
  {
    var next := Dropped(w);
    assert Pending(next)[t] == Pending(w)[t] - Unsent(w)[t] && Unsent(next)[t] == 0;
  }

  /** The token in service was in service before, is right, or is doubted. */
  predicate Vouched(w: World, next: World) {
    (Exposed(w) && next.row.token == w.row.token) || Right(w, next.row.token) || next.row.token in next.doubtful
  }

  /** Taking a token out of service, or doubting it, needs no new evidence. */
  lemma LessServiceKeepsGuards(w: World, next: World)
    requires forall t :: t !in w.doubtful ==> Guarded(w, t)
    requires next.strays == w.strays && next.running == w.running && next.spent == w.spent && next.live == w.live
    requires w.doubtful <= next.doubtful
    requires w.running.None?
    requires Exposed(next) ==> Vouched(w, next)
    ensures forall t :: t !in next.doubtful ==> Guarded(next, t)
  {
    assert Pending(next) == Pending(w) && Unsent(next) == Unsent(w);
    forall t | t !in next.doubtful
      ensures Guarded(next, t)
    {
      assert Guarded(w, t);
    }
  }

  lemma ReconcileKeepsInvariant(w: World, check: Check)
    requires Invariant(w) && Enabled(w, Reconcile(check))
    ensures Invariant(Apply(w, Reconcile(check)))
  {
    hide Guarded;
    LessServiceKeepsGuards(w, Apply(w, Reconcile(check)));
  }

  lemma ReplaceKeepsInvariant(w: World, material: Material)
    requires Invariant(w) && Enabled(w, Replace(material))
    ensures Invariant(Apply(w, Replace(material)))
  {
  }

  lemma ReportKeepsInvariant(w: World, version: nat)
    requires Invariant(w) && Enabled(w, Report(version))
    ensures Invariant(Apply(w, Report(version)))
  {
  }

  lemma ReactivateKeepsInvariant(w: World)
    requires Invariant(w) && Enabled(w, Reactivate)
    ensures Invariant(Apply(w, Reactivate))
  {
  }

  lemma StepKeepsInvariant(w: World, step: Step)
    requires Invariant(w) && Enabled(w, step)
    ensures Invariant(Apply(w, step))
  {
    hide *;
    match step
    case Admit => AdmitKeepsInvariant(w);
    case OpenIntent => OpenIntentKeepsInvariant(w);
    case Call(arrives, emptyAccess, replyLost) => CallKeepsInvariant(w, arrives, emptyAccess, replyLost);
    case Finish => FinishKeepsInvariant(w);
    case CommitFails => CommitFailsKeepsInvariant(w);
    case StrayArrives(token) => StrayArrivesKeepsInvariant(w, token);
    case Crash => CrashKeepsInvariant(w);
    case Abandon => AbandonKeepsInvariant(w);
    case Reconcile(check) => ReconcileKeepsInvariant(w, check);
    case Replace(material) => ReplaceKeepsInvariant(w, material);
    case Report(version) => ReportKeepsInvariant(w, version);
    case Reactivate => ReactivateKeepsInvariant(w);
  }

  lemma {:induction false} RunsKeepInvariant(steps: seq<Step>)
    requires Possible(steps)
    ensures Invariant(After(steps))
  {
    hide Apply, Enabled;
    if steps == [] {
      assert After(steps) == Start();
      assert Invariant(Start());
    } else {
      var before := steps[..|steps| - 1];
      RunsKeepInvariant(before);
      StepKeepsInvariant(After(before), steps[|steps| - 1]);
    }
  }

  // ---------------------------------------------------------------- what every run guarantees

  /** A spent token is presented again only if a wrong guess put or left it in service. */
  lemma OnlyDoubtfulTokensAreReused(steps: seq<Step>)
    requires Possible(steps)
    ensures After(steps).reused <= After(steps).doubtful
  {
    RunsKeepInvariant(steps);
  }

  /** Waiting readers share one exchange: no version is refreshed from twice, and versions are
      refreshed in order. */
  lemma EachVersionRefreshedOnce(steps: seq<Step>)
    requires Possible(steps)
    ensures
      var w := After(steps);
      forall i, j :: 0 <= i < j < |w.commits| ==> w.commits[i] < w.commits[j] < w.row.version
  {
    RunsKeepInvariant(steps);
  }

  /** While a stored token nobody doubts is in service, it is the one the provider still takes,
      and no request of a lost instance can spend it. */
  lemma ServedTokenIsLive(steps: seq<Step>)
    requires Possible(steps) && Exposed(After(steps))
    requires After(steps).row.token !in After(steps).doubtful
    ensures After(steps).row.token == After(steps).live
    ensures After(steps).row.token !in After(steps).spent
    ensures After(steps).row.token !in After(steps).strays
  {
    RunsKeepInvariant(steps);
    assert Guarded(After(steps), After(steps).row.token);
  }

  /** Boot leaves no open intent in service, spends nothing, and puts a guarded row back into
      service only on a passed check. */
  lemma ReconcileFailsSafe(w: World, check: Check)
    requires Enabled(w, Reconcile(check))
    ensures var next := Apply(w, Reconcile(check));
      && next.booted && (next.intent.None? || !next.row.active)
      && next.spent == w.spent && next.reused == w.reused && next.live == w.live
      && (Exposed(next) ==> next.row == w.row && (Exposed(w) || check == Valid))
  {
  }

  /** The second presentation is refused, and the refusal takes the record out of service. */
  lemma RefusalEndsService(w: World)
    requires Invariant(w) && Enabled(w, Finish) && w.running.value.stage.answer == InvalidGrant
    ensures !Exposed(Apply(w, Finish))
  {
  }

  // ---------------------------------------------------------------- guesses

  /** The ways a token gets or stays in service although nobody there can know whether it is
      spent: a refresh that failed or brought no access token, a validity check that passed, an
      operator who reactivates the record, an operator who stores a file of unknown age. */
  datatype Guess = FailedReply | EmptyReply | PassedCheck | Reactivation | StoredFile

  /** The guess a step makes, if any. Each shows in the step and the state it is taken in. */
  function GuessOf(w: World, step: Step): Option<Guess> {
    match step
    case Finish =>
      if w.running.Some? && w.running.value.stage == Answered(Failed) then Some(FailedReply)
      else if w.running.Some? && w.running.value.stage == Answered(EmptyAccess) then Some(EmptyReply)
      else None
    case Reconcile(check) =>
      if check == Valid && w.intent.Some? && w.row.active && w.row.token == w.intent.value.token then Some(PassedCheck)
      else None
    case Reactivate => Some(Reactivation)
    case Replace(OldFile(_)) => Some(StoredFile)
    case _ => None
  }

  /** Every guess a run makes is of one of the given kinds. */
  ghost predicate OnlyGuesses(steps: seq<Step>, kinds: set<Guess>)
    requires Possible(steps)
  {
    steps == [] ||
    (OnlyGuesses(steps[..|steps| - 1], kinds) &&
     Within(GuessOf(After(steps[..|steps| - 1]), steps[|steps| - 1]), kinds))
  }

  predicate Within(guess: Option<Guess>, kinds: set<Guess>) {
    guess.None? || guess.value in kinds
  }

  lemma {:induction false} MoreKinds(steps: seq<Step>, kinds: set<Guess>, more: set<Guess>)
    requires Possible(steps) && OnlyGuesses(steps, kinds) && kinds <= more
    ensures OnlyGuesses(steps, more)
  {
    hide GuessOf, Apply, Enabled;
    if steps != [] {
      MoreKinds(steps[..|steps| - 1], kinds, more);
    }
  }

  /** The token a guess is about. */
  function GuessedToken(w: World, step: Step): nat {
    match step
    case Finish => if w.running.Some? then w.running.value.token else w.row.token
    case Replace(OldFile(token)) => token
    case _ => w.row.token
  }

  /** Every guess of a run is right. */
  ghost predicate AllRight(steps: seq<Step>)
    requires Possible(steps)
  {
    steps == [] ||
    (var w, step := After(steps[..|steps| - 1]), steps[|steps| - 1];
     AllRight(steps[..|steps| - 1]) && (GuessOf(w, step).Some? ==> Right(w, GuessedToken(w, step))))
  }

  lemma StepDoubts(w: World, step: Step)
    requires Enabled(w, step) && (GuessOf(w, step).Some? ==> Right(w, GuessedToken(w, step)))
    ensures Apply(w, step).doubtful == w.doubtful
  {
    hide Pending, Unsent, Exposed, AnswerTo;
  }

  lemma {:induction false} NothingDoubtful(steps: seq<Step>)
    requires Possible(steps) && AllRight(steps)
    ensures After(steps).doubtful == {}
  {
    hide Apply, Enabled, GuessOf, GuessedToken, Right;
    if steps == [] {
      assert After(steps) == Start();
    } else {
      NothingDoubtful(steps[..|steps| - 1]);
      StepDoubts(After(steps[..|steps| - 1]), steps[|steps| - 1]);
    }
  }

  /** However often the vault crashes, loses its lease or drops an exchange, fails a commit, is
      reported against or gets a new login, no refresh token is presented after it was spent, if
      every guess was right. A failure that never reached the provider is such a guess. */
  lemma RightGuessesAreHarmless(steps: seq<Step>)
    requires Possible(steps) && AllRight(steps)
    ensures After(steps).reused == {}
  {
    OnlyDoubtfulTokensAreReused(steps);
    NothingDoubtful(steps);
  }

  lemma {:induction false} NoGuessIsWrong(steps: seq<Step>)
    requires Possible(steps) && OnlyGuesses(steps, {})
    ensures AllRight(steps)
  {
    hide Apply, Enabled, GuessOf, GuessedToken, Right;
    if steps != [] {
      NoGuessIsWrong(steps[..|steps| - 1]);
    }
  }

  /** In particular if nothing was guessed. */
  lemma NoTokenIsSpentTwice(steps: seq<Step>)
    requires Possible(steps) && OnlyGuesses(steps, {})
    ensures After(steps).reused == {}
  {
    NoGuessIsWrong(steps);
    RightGuessesAreHarmless(steps);
  }

  /** A request that never leaves keeps its token right: the failure it ends in is harmless. */
  lemma UnsentFailureIsRight(steps: seq<Step>) returns (longer: seq<Step>)
    requires Possible(steps) && AllRight(steps) && Enabled(After(steps), Admit)
    ensures Possible(longer) && AllRight(longer) && |longer| == |steps| + 4
    ensures Exposed(After(longer)) && After(longer).row == After(steps).row && After(longer).spent == After(steps).spent
  {
    hide Invariant;
    var w := After(steps);
    ServedIsRight(steps);
    longer := ExtendRight(steps, Admit);
    longer := ExtendRight(longer, OpenIntent);
    longer := ExtendRight(longer, Call(false, false, false));
    longer := ExtendRight(longer, Finish);
  }

  lemma ServedIsRight(steps: seq<Step>)
    requires Possible(steps) && AllRight(steps) && Exposed(After(steps))
    ensures Right(After(steps), After(steps).row.token)
  {
    NothingDoubtful(steps);
    ServedTokenIsLive(steps);
  }

  lemma ExtendRight(steps: seq<Step>, step: Step) returns (longer: seq<Step>)
    requires Possible(steps) && AllRight(steps) && Enabled(After(steps), step)
    ensures longer == steps + [step] && Possible(longer) && After(longer) == Apply(After(steps), step)
    ensures (GuessOf(After(steps), step).Some? ==> Right(After(steps), GuessedToken(After(steps), step))) ==>
      AllRight(longer)
  {
    longer := steps + [step];
    assert longer[..|longer| - 1] == steps;
  }

  // ---------------------------------------------------------------- guesses that go wrong

  lemma Extend(steps: seq<Step>, step: Step, kinds: set<Guess>) returns (longer: seq<Step>)
    requires Possible(steps) && OnlyGuesses(steps, kinds)
    requires Enabled(After(steps), step) && Within(GuessOf(After(steps), step), kinds)
    ensures longer == steps + [step] && Possible(longer) && After(longer) == Apply(After(steps), step)
    ensures OnlyGuesses(longer, kinds)
  {
    longer := steps + [step];
    assert longer[..|longer| - 1] == steps;
  }

  function Sending(w: World): World {
    var e := Exchange(w.row.version, w.row.token, Sent);
    w.(intent := Some(Intent(w.row.version, w.row.token)), running := Some(e))
  }

  /** The stored token is sent, the intent written before it. */
  lemma Send(steps: seq<Step>, kinds: set<Guess>) returns (longer: seq<Step>)
    requires Possible(steps) && OnlyGuesses(steps, kinds) && Enabled(After(steps), Admit)
    ensures Possible(longer) && OnlyGuesses(longer, kinds) && After(longer) == Sending(After(steps))
  {
    longer := Extend(steps, Admit, kinds);
    longer := Extend(longer, OpenIntent, kinds);
  }

  /** A stored token that is spent already is presented again by the next refresh. */
  lemma SpentTokenIsPresented(steps: seq<Step>, kinds: set<Guess>) returns (longer: seq<Step>)
    requires Possible(steps) && OnlyGuesses(steps, kinds) && Enabled(After(steps), Admit)
    requires After(steps).row.token in After(steps).spent
    ensures Possible(longer) && OnlyGuesses(longer, kinds) && After(longer).reused != {}
  {
    longer := Send(steps, kinds);
    longer := Extend(longer, Call(true, false, false), kinds);
    assert After(steps).row.token in After(longer).reused;
  }

  lemma NothingYet(kinds: set<Guess>)
    ensures Possible([]) && After([]) == Start() && OnlyGuesses([], kinds)
  {
  }

  /** The first token is exchanged, with the reply as told. */
  lemma FirstExchange(emptyAccess: bool, replyLost: bool, kinds: set<Guess>) returns (steps: seq<Step>)
    ensures Possible(steps) && OnlyGuesses(steps, kinds)
    ensures After(steps) == Apply(Sending(Start()), Call(true, emptyAccess, replyLost))
  {
    NothingYet(kinds);
    steps := Send([], kinds);
    steps := Extend(steps, Call(true, emptyAccess, replyLost), kinds);
  }

  /** A reply that is lost leaves a spent token in service. */
  lemma FailedReplyCanGoWrong() returns (steps: seq<Step>)
    ensures Possible(steps) && OnlyGuesses(steps, {FailedReply}) && After(steps).reused != {}
  {
    steps := FirstExchange(false, true, {FailedReply});
    steps := Extend(steps, Finish, {FailedReply});
    steps := SpentTokenIsPresented(steps, {FailedReply});
  }

  /** So does a reply without an access token. */
  lemma EmptyReplyCanGoWrong() returns (steps: seq<Step>)
    ensures Possible(steps) && OnlyGuesses(steps, {EmptyReply}) && After(steps).reused != {}
  {
    steps := FirstExchange(true, false, {EmptyReply});
    steps := Extend(steps, Finish, {EmptyReply});
    steps := SpentTokenIsPresented(steps, {EmptyReply});
  }

  /** An instance is lost while its request is on the way. */
  lemma LostWhileSending(kinds: set<Guess>) returns (steps: seq<Step>)
    ensures Possible(steps) && OnlyGuesses(steps, kinds)
    ensures After(steps) == Start().(intent := Some(Intent(1, 0)), booted := false, strays := multiset{0})
  {
    hide Possible, After, OnlyGuesses;
    NothingYet(kinds);
    steps := Send([], kinds);
    assert Pending(After(steps)) - Unsent(After(steps)) == multiset{0};
    steps := Extend(steps, Crash, kinds);
  }

  /** A validity check that runs while the request of a lost instance is still on its way passes
      truthfully and clears the intent; the request then spends the token under the new owner. */
  lemma PassedCheckCanGoWrong() returns (steps: seq<Step>)
    ensures Possible(steps) && OnlyGuesses(steps, {PassedCheck}) && After(steps).reused != {}
  {
    hide Possible, After, OnlyGuesses;
    var kinds := {PassedCheck};
    steps := LostWhileSending(kinds);
    assert After(steps).row.token == After(steps).live && After(steps).spent == {};
    steps := Extend(steps, Reconcile(Valid), kinds);
    steps := Extend(steps, StrayArrives(0), kinds);
    steps := SpentTokenIsPresented(steps, kinds);
  }

  /** An operator puts a record back that boot took out of service because its token may be spent. */
  lemma ReactivationCanGoWrong() returns (steps: seq<Step>)
    ensures Possible(steps) && OnlyGuesses(steps, {Reactivation}) && After(steps).reused != {}
  {
    var kinds := {Reactivation};
    steps := FirstExchange(false, false, kinds);
    steps := Extend(steps, Crash, kinds);
    steps := Extend(steps, Reconcile(NoCheck), kinds);
    steps := Extend(steps, Reactivate, kinds);
    steps := SpentTokenIsPresented(steps, kinds);
  }

  /** An operator imports a file again that the vault has refreshed away from. */
  lemma StoredFileCanGoWrong() returns (steps: seq<Step>)
    ensures Possible(steps) && OnlyGuesses(steps, {StoredFile}) && After(steps).reused != {}
  {
    var kinds := {StoredFile};
    steps := FirstExchange(false, false, kinds);
    steps := Extend(steps, Finish, kinds);
    steps := Extend(steps, Replace(OldFile(0)), kinds);
    steps := SpentTokenIsPresented(steps, kinds);
  }

  lemma AnyGuessCanGoWrong(kind: Guess) returns (steps: seq<Step>)
    ensures Possible(steps) && OnlyGuesses(steps, {kind}) && After(steps).reused != {}
  {
    match kind
    case FailedReply => steps := FailedReplyCanGoWrong();
    case EmptyReply => steps := EmptyReplyCanGoWrong();
    case PassedCheck => steps := PassedCheckCanGoWrong();
    case Reactivation => steps := ReactivationCanGoWrong();
    case StoredFile => steps := StoredFileCanGoWrong();
  }

  /** No run limited to these kinds of guesses presents a spent token. */
  ghost predicate Safe(kinds: set<Guess>) {
    forall steps :: Possible(steps) && OnlyGuesses(steps, kinds) ==> After(steps).reused == {}
  }

  /** The exact condition: safety holds when nothing is guessed, and is lost with any one kind. */
  lemma SafeIffNothingIsGuessed(kinds: set<Guess>)
    ensures Safe(kinds) <==> kinds == {}
  {
    hide Possible, After, OnlyGuesses;
    if kinds == {} {
      forall steps | Possible(steps) && OnlyGuesses(steps, kinds) ensures After(steps).reused == {} {
        NoTokenIsSpentTwice(steps);
      }
    } else {
      var kind :| kind in kinds;
      var steps := AnyGuessCanGoWrong(kind);
      MoreKinds(steps, {kind}, kinds);
    }
  }
}
