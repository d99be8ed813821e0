/** The client's watch tracker: what every sequence of calls keeps. */
module WatchTracker {
  import opened Bytes

  datatype Notice = Notice(epoch: Bytes, seqNo: u64, view: Bytes, keys: Bytes)

  datatype Action =
    | Reread(inventory: bool, keys: bool)
    | ResubscribeAndReread
    | ReadListOnce
    | ReconnectAndReread
    | Fallback
    | RetryLater
    | Stop

  datatype State = State(
    view: Option<Bytes>, keys: Option<Bytes>, last: Option<(Bytes, u64)>,
    notices: bool, closed: bool, awaitingList: bool)

  const INITIAL := State(None, None, None, false, false, false)

  datatype Call =
    | InventoryRead(view: Bytes)
    | KeysRead(digest: Bytes)
    | Opened
    | Noticed(notice: Notice)
    | Closed
    | ListResult(accepted: bool)
    | RouteLost
    | UnknownMethod
    | Refused

  /** `notice` continues `last`: same epoch, and the very next number (`checked_add`). */
  predicate Continues(last: Option<(Bytes, u64)>, notice: Notice) {
    last.Some? && last.value.0 == notice.epoch && last.value.1 + 1 == notice.seqNo
  }

  /** The answer to a call; the calls that return nothing have none. */
  function Answer(s: State, c: Call): Option<Action> {
    match c
    case InventoryRead(_) => None
    case KeysRead(_) => None
    case Opened => None
    case Noticed(n) =>
      Some(if s.closed then Stop
           else Reread(!Continues(s.last, n) || s.view != Some(n.view), s.keys != Some(n.keys)))
    case Closed => Some(if s.closed then Stop else if s.notices then ResubscribeAndReread else ReadListOnce)
    case ListResult(accepted) => Some(if s.awaitingList && accepted then RetryLater else Stop)
    case RouteLost => Some(if s.closed && !s.awaitingList then Stop else ReconnectAndReread)
    case UnknownMethod => Some(Fallback)
    case Refused => Some(Stop)
  }

  function Next(s: State, c: Call): State {
    match c
    case InventoryRead(view) => s.(view := Some(view))
    case KeysRead(digest) => s.(keys := Some(digest))
    case Opened => s.(notices := false, closed := false, awaitingList := false, last := None)
    case Noticed(n) => if s.closed then s else s.(last := Some((n.epoch, n.seqNo)), notices := true)
    case Closed => if s.closed then s else s.(closed := true, awaitingList := !s.notices)
    case ListResult(_) => if s.awaitingList then s.(awaitingList := false, closed := true) else s
    case RouteLost => s.(awaitingList := false, closed := true)
    case UnknownMethod => s.(awaitingList := false, closed := true)
    case Refused => s.(awaitingList := false, closed := true)
  }

  class Tracker {
    var view: Option<Bytes>
    var keys: Option<Bytes>
    var last: Option<(Bytes, u64)>
    var notices: bool
    var closed: bool
    var awaitingList: bool

    function Current(): State
      reads this
    {
      State(view, keys, last, notices, closed, awaitingList)
    }

    constructor ()
      ensures Current() == INITIAL
    {
      view, keys, last := None, None, None;
      notices, closed, awaitingList := false, false, false;
    }

    method OnInventoryRead(digest: Bytes)
      modifies this
      ensures Current() == Next(old(Current()), InventoryRead(digest))
    {
      view := Some(digest);
    }

    method OnKeysRead(digest: Bytes)
      modifies this
      ensures Current() == Next(old(Current()), KeysRead(digest))
    {
      keys := Some(digest);
    }

    method OnOpened()
      modifies this
      ensures Current() == Next(old(Current()), Opened)
    {
      notices := false;
      closed := false;
      awaitingList := false;
      last := None;
    }

    method OnNotice(n: Notice) returns (a: Action)
      modifies this
      ensures Current() == Next(old(Current()), Noticed(n)) && Some(a) == Answer(old(Current()), Noticed(n))
    {
      if closed {
        return Stop;
      }
      var discontinuity :=
        last.None? || last.value.0 != n.epoch || last.value.1 == U64 - 1 || last.value.1 + 1 != n.seqNo;
      var inventory := discontinuity || view != Some(n.view);
      var keysChanged := keys != Some(n.keys);
      last := Some((n.epoch, n.seqNo));
      notices := true;
      a := Reread(inventory, keysChanged);
    }

    method OnClosed() returns (a: Action)
      modifies this
      ensures Current() == Next(old(Current()), Closed) && Some(a) == Answer(old(Current()), Closed)
    {
      if closed {
        return Stop;
      }
      closed := true;
      awaitingList := !notices;
      a := if notices then ResubscribeAndReread else ReadListOnce;
    }

    method OnListResult(accepted: bool) returns (a: Action)
      modifies this
      ensures Current() == Next(old(Current()), ListResult(accepted))
      ensures Some(a) == Answer(old(Current()), ListResult(accepted))
    {
      if !awaitingList {
        return Stop;
      }
      awaitingList := false;
      closed := true;
      a := if accepted then RetryLater else Stop;
    }

    method OnRouteLost() returns (a: Action)
      modifies this
      ensures Current() == Next(old(Current()), RouteLost) && Some(a) == Answer(old(Current()), RouteLost)
    {
      if closed && !awaitingList {
        return Stop;
      }
      awaitingList := false;
      closed := true;
      a := ReconnectAndReread;
    }

    method OnUnknownMethod() returns (a: Action)
      modifies this
      ensures Current() == Next(old(Current()), UnknownMethod) && Some(a) == Answer(old(Current()), UnknownMethod)
    {
      awaitingList := false;
      closed := true;
      a := Fallback;
    }

    method OnRefused() returns (a: Action)
      modifies this
      ensures Current() == Next(old(Current()), Refused) && Some(a) == Answer(old(Current()), Refused)
    {
      awaitingList := false;
      closed := true;
      a := Stop;
    }
  }

  // ---------------------------------------------------------------- runs

  function Run(s: State, calls: seq<Call>): State {
    if calls == [] then s else Next(Run(s, calls[..|calls| - 1]), calls[|calls| - 1])
  }

  /** The answer to call number `i` of a run. */
  function AnswerAt(s: State, calls: seq<Call>, i: nat): Option<Action>
    requires i < |calls|
  {
    Answer(Run(s, calls[..i]), calls[i])
  }

  /** What the calls themselves say: the last acknowledged inventory and key digests. */
  function LastView(calls: seq<Call>): Option<Bytes> {
    if calls == [] then None
    else if calls[|calls| - 1].InventoryRead? then Some(calls[|calls| - 1].view)
    else LastView(calls[..|calls| - 1])
  }

  function LastKeys(calls: seq<Call>): Option<Bytes> {
    if calls == [] then None
    else if calls[|calls| - 1].KeysRead? then Some(calls[|calls| - 1].digest)
    else LastKeys(calls[..|calls| - 1])
  }

  /** The notices of the current subscription that were answered with a reread, and whether the
      answer ordered the inventory. */
  function NoticeLog(calls: seq<Call>): seq<(Notice, bool)> {
    if calls == [] then []
    else
      var n := |calls| - 1;
      var log := NoticeLog(calls[..n]);
      if calls[n].Opened? then []
      else if calls[n].Noticed? && AnswerAt(INITIAL, calls, n).value.Reread? then
        log + [(calls[n].notice, AnswerAt(INITIAL, calls, n).value.inventory)]
      else log
  }

  predicate Successor(m: Notice, n: Notice) {
    m.epoch == n.epoch && m.seqNo + 1 == n.seqNo
  }

  /** The tracker remembers exactly what its run says. */
  lemma {:induction false} StateIsHistory(calls: seq<Call>)
    ensures
      var s, log := Run(INITIAL, calls), NoticeLog(calls);
      && s.view == LastView(calls) && s.keys == LastKeys(calls)
      && (s.last.None? <==> log == []) && (s.notices <==> log != [])
      && (log != [] ==> s.last == Some((log[|log| - 1].0.epoch, log[|log| - 1].0.seqNo)))
  {
    if calls != [] {
      StateIsHistory(calls[..|calls| - 1]);
    }
  }

  /** When an open watch leaves the inventory unread: exactly on the very next notice of the same
      epoch in this subscription whose view is the one last acknowledged. Keys go by digest. */
  lemma RereadIff(calls: seq<Call>, n: Notice)
    requires !Run(INITIAL, calls).closed
    ensures
      var a := Answer(Run(INITIAL, calls), Noticed(n)).value;
      var log := NoticeLog(calls);
      && a.Reread?
      && (!a.inventory <==> log != [] && Successor(log[|log| - 1].0, n) && LastView(calls) == Some(n.view))
      && (!a.keys <==> LastKeys(calls) == Some(n.keys))
  {
    StateIsHistory(calls);
  }

  /** Between ordered inventory reads the processed notices carry consecutive numbers of one
      epoch: nothing dropped, repeated or reordered goes without a read. */
  lemma {:induction false} QuietNoticesAreConsecutive(calls: seq<Call>)
    ensures
      var log := NoticeLog(calls);
      forall k :: 0 <= k < |log| && !log[k].1 ==> k > 0 && Successor(log[k - 1].0, log[k].0)
  {
    if calls != [] {
      var n := |calls| - 1;
      QuietNoticesAreConsecutive(calls[..n]);
      StateIsHistory(calls[..n]);
    }
  }

  // ---------------------------------------------------------------- one reconnect per subscription

  /** The answers that make a consumer subscribe again. */
  predicate Retries(a: Option<Action>) {
    a.Some? && (a.value.ResubscribeAndReread? || a.value.RetryLater? || a.value.ReconnectAndReread?)
  }

  function CountRetries(s: State, calls: seq<Call>): nat {
    if calls == [] then 0
    else
      CountRetries(s, calls[..|calls| - 1]) + (if Retries(AnswerAt(s, calls, |calls| - 1)) then 1 else 0)
  }

  function CountListReads(s: State, calls: seq<Call>): nat {
    if calls == [] then 0
    else
      CountListReads(s, calls[..|calls| - 1]) + (if AnswerAt(s, calls, |calls| - 1) == Some(ReadListOnce) then 1 else 0)
  }

  /** Within one subscription: no further `opened`. */
  predicate OneSubscription(calls: seq<Call>) {
    forall i :: 0 <= i < |calls| ==> !calls[i].Opened?
  }

  predicate Over(s: State) {
    s.closed && !s.awaitingList
  }

  /** From any state, what is left of a subscription. */
  lemma {:induction false} RetryBudget(s: State, calls: seq<Call>)
    requires OneSubscription(calls)
    ensures CountRetries(s, calls) + (if Over(Run(s, calls)) then 0 else 1) <= 1
    ensures CountListReads(s, calls) + (if Run(s, calls).closed then 0 else 1) <= 1
    ensures Over(s) ==> Over(Run(s, calls))
    decreases |calls|
  {
    if calls != [] {
      RetryBudget(s, calls[..|calls| - 1]);
    }
  }

  /** Between two `opened` calls every sequence of calls asks to subscribe again at most once and
      for the confirming list read at most once, and for that one only if no notice came. */
  lemma OneReconnectPerSubscription(s: State, calls: seq<Call>)
    requires OneSubscription(calls)
    ensures
      var s' := Next(s, Opened);
      && CountRetries(s', calls) <= 1 && CountListReads(s', calls) <= 1
      && (CountListReads(s', calls) == 1 ==> !Run(s', calls).notices)
  {
    RetryBudget(Next(s, Opened), calls);
    ListReadMeansNoNotice(Next(s, Opened), calls);
  }

  lemma {:induction false} ListReadMeansNoNotice(s: State, calls: seq<Call>)
    requires OneSubscription(calls)
    ensures CountListReads(s, calls) >= 1 ==> Run(s, calls).closed && !Run(s, calls).notices
  {
    if calls != [] {
      ListReadMeansNoNotice(s, calls[..|calls| - 1]);
    }
  }

  /** After the end only `Stop` comes back, or `Fallback` from the unknown-method call. */
  lemma AfterTheEnd(s: State, calls: seq<Call>, i: nat)
    requires OneSubscription(calls) && Over(s) && i < |calls|
    ensures
      || AnswerAt(s, calls, i) in {None, Some(Stop)}
      || (calls[i].UnknownMethod? && AnswerAt(s, calls, i) == Some(Fallback))
  {
    RetryBudget(s, calls[..i]);
  }
}
