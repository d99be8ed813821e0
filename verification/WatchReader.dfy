/** The task that reads one held watch off its connection: which frames it forwards, which frame
    ends it, and with what outcome.
 */
module WatchReader {
  import opened Bytes
  import opened WatchTracker

  datatype FrameType = StreamData | Response | StreamEnd | ErrorFrame | Goodbye | OtherFrame

  /** A frame with what its body decodes to: a notice, a refusal inside a response, an error code. */
  datatype Frame = Frame(
    channel: nat, epoch: nat, corr: u64, ty: FrameType,
    notice: Option<Notice>, refusal: bool, code: Option<Bytes>)

  datatype Route = Route(channel: nat, epoch: nat, corr: u64)

  datatype ListReply = Listed | ListRefused | ListInvalid | ListFailed

  datatype Outcome =
    | RefusedWatch | Ended | NotAccepting | TransportLost | Unsupported | InvalidNotice | InvalidResponse

  predicate OnRoute(f: Frame, r: Route) {
    f.channel == r.channel && f.epoch == r.epoch
  }

  predicate Own(f: Frame, r: Route) {
    OnRoute(f, r) && f.corr == r.corr
  }

  /** A frame whose notice is forwarded. */
  predicate Forwards(f: Frame, r: Route) {
    Own(f, r) && f.ty.StreamData? && f.notice.Some?
  }

  /** A frame that ends the watch. */
  predicate Decides(f: Frame, r: Route) {
    || (OnRoute(f, r) && f.ty.Goodbye?)
    || (Own(f, r) && (f.ty.Response? || f.ty.StreamEnd? || f.ty.ErrorFrame? || (f.ty.StreamData? && f.notice.None?)))
  }

  /** The outcome the deciding frame means. */
  function Verdict(f: Frame, anyNotice: bool, list: ListReply): Outcome {
    match f.ty
    case StreamData => InvalidNotice
    case Response => if f.refusal then RefusedWatch else InvalidResponse
    case StreamEnd =>
      if anyNotice then Ended
      else
        (match list
         case Listed => NotAccepting
         case ListRefused => RefusedWatch
         case ListInvalid => InvalidResponse
         case ListFailed => TransportLost)
    case ErrorFrame => if f.code == Some("unknown_method") then Unsupported else TransportLost
    case _ => TransportLost
  }

  function Notices(frames: seq<Frame>, r: Route): seq<Notice> {
    if frames == [] then []
    else
      var n := |frames| - 1;
      Notices(frames[..n], r) + (if Forwards(frames[n], r) then [frames[n].notice.value] else [])
  }

  /** The first deciding frame, or the end of the connection. */
  ghost predicate DecidedAt(frames: seq<Frame>, r: Route, k: nat) {
    k <= |frames| && (forall i :: 0 <= i < k ==> !Decides(frames[i], r)) && (k < |frames| ==> Decides(frames[k], r))
  }

  /** What a finished read means, its deciding frame being number `k`. */
  ghost predicate ReadUntil(
    frames: seq<Frame>, r: Route, room: nat -> bool, list: ListReply, k: nat, outcome: Outcome, delivered: seq<Notice>)
  {
    && DecidedAt(frames, r, k) && delivered <= Notices(frames[..k], r)
    && if delivered == Notices(frames[..k], r) then
         outcome == (if k < |frames| then Verdict(frames[k], delivered != [], list) else TransportLost)
       else outcome == TransportLost && !room(|delivered|)
  }

  /** Reads frames until one decides. `room(i)` says whether the bounded queue takes notice `i`.
      Every forwarded notice precedes the deciding frame; none is lost, repeated or reordered
      inside the client, and a full queue ends the watch instead of dropping one. */
  method ReadScopedWatch(frames: seq<Frame>, r: Route, room: nat -> bool, list: ListReply)
    returns (outcome: Outcome, delivered: seq<Notice>, listReads: nat)
    ensures exists k: nat :: ReadUntil(frames, r, room, list, k, outcome, delivered)
    ensures forall i :: 0 <= i < |delivered| ==> room(i)
    ensures outcome == Ended ==> delivered != []
    ensures outcome == NotAccepting ==> delivered == [] && list == Listed
    ensures listReads <= 1 && (listReads == 1 ==> delivered == [])
  {
    hide Notices, ReadUntil, Decides, Verdict;
    var tracker := new Tracker();
    NoNotices(r);
    delivered := [];
    listReads := 0;
    for i := 0 to |frames|
      invariant forall j :: 0 <= j < i ==> !Decides(frames[j], r)
      invariant delivered == Notices(frames[..i], r)
      invariant forall j :: 0 <= j < |delivered| ==> room(j)
      invariant !tracker.closed && (tracker.notices <==> delivered != []) && listReads == 0
      modifies tracker
    {
      var f := frames[i];
      FrameMeans(f, r, delivered != [], list);
      NoticesStep(frames, r, i);
      if !OnRoute(f, r) {
        continue;
      }
      if Decides(f, r) {
        ReadDone(frames, r, room, list, i, delivered);
      }
      if f.ty.Goodbye? {
        return TransportLost, delivered, 0;
      }
      if f.corr != r.corr {
        continue;
      }
      match f.ty
      case StreamData =>
        if f.notice.None? {
          return InvalidNotice, delivered, 0;
        }
        var _ := tracker.OnNotice(f.notice.value);
        if !room(|delivered|) {
          ghost var k := QueueFull(frames, r, room, list, i, delivered);
          return TransportLost, delivered, 0;
        }
        delivered := delivered + [f.notice.value];
      case Response =>
        if f.refusal {
          var _ := tracker.OnRefused();
          return RefusedWatch, delivered, 0;
        }
        return InvalidResponse, delivered, 0;
      case StreamEnd =>
        var action := tracker.OnClosed();
        if action == ResubscribeAndReread {
          return Ended, delivered, 0;
        }
        if list.Listed? {
          var _ := tracker.OnListResult(true);
        } else if list.ListRefused? {
          var _ := tracker.OnListResult(false);
        }
        return Verdict(f, false, list), delivered, 1;
      case ErrorFrame =>
        if f.code == Some("unknown_method") {
          var _ := tracker.OnUnknownMethod();
          return Unsupported, delivered, 0;
        }
        var _ := tracker.OnRouteLost();
        return TransportLost, delivered, 0;
      case _ =>
    }
    ConnectionEnds(frames, r, room, list, delivered);
    outcome := TransportLost;
  }

  lemma NoNotices(r: Route)
    ensures Notices([], r) == []
  {
  }

  lemma NoticesStep(frames: seq<Frame>, r: Route, i: nat)
    requires i < |frames|
    ensures Notices(frames[..i + 1], r) ==
            Notices(frames[..i], r) + (if Forwards(frames[i], r) then [frames[i].notice.value] else [])
  {
    assert frames[..i + 1][..i] == frames[..i];
  }

  /** What the reader's tests on one frame amount to. */
  lemma FrameMeans(f: Frame, r: Route, anyNotice: bool, list: ListReply)
    ensures !OnRoute(f, r) ==> !Decides(f, r)
    ensures OnRoute(f, r) && f.ty.Goodbye? ==> Decides(f, r) && Verdict(f, anyNotice, list) == TransportLost
    ensures OnRoute(f, r) && !f.ty.Goodbye? && f.corr != r.corr ==> !Decides(f, r)
    ensures Own(f, r) && f.ty.StreamData? ==>
      (Decides(f, r) <==> f.notice.None?) && Verdict(f, anyNotice, list) == InvalidNotice
    ensures Own(f, r) && f.ty.Response? ==>
      Decides(f, r) && Verdict(f, anyNotice, list) == if f.refusal then RefusedWatch else InvalidResponse
    ensures Own(f, r) && f.ty.StreamEnd? ==>
      && Decides(f, r) && (anyNotice ==> Verdict(f, anyNotice, list) == Ended)
      && (!anyNotice ==> Verdict(f, false, list) != Ended)
    ensures f.ty.StreamEnd? && Verdict(f, false, list) == NotAccepting ==> list == Listed
    ensures Own(f, r) && f.ty.ErrorFrame? ==>
      && Decides(f, r)
      && Verdict(f, anyNotice, list) == if f.code == Some("unknown_method") then Unsupported else TransportLost
    ensures f.ty.OtherFrame? ==> !Decides(f, r)
  {
  }

  lemma ReadDone(frames: seq<Frame>, r: Route, room: nat -> bool, list: ListReply, k: nat, delivered: seq<Notice>)
    requires k < |frames| && Decides(frames[k], r) && delivered == Notices(frames[..k], r)
    requires forall i :: 0 <= i < k ==> !Decides(frames[i], r)
    ensures ReadUntil(frames, r, room, list, k, Verdict(frames[k], delivered != [], list), delivered)
  {
    hide Decides, Notices, Verdict;
  }

  lemma ConnectionEnds(frames: seq<Frame>, r: Route, room: nat -> bool, list: ListReply, delivered: seq<Notice>)
    requires delivered == Notices(frames[..|frames|], r) && forall i :: 0 <= i < |frames| ==> !Decides(frames[i], r)
    ensures ReadUntil(frames, r, room, list, |frames|, TransportLost, delivered)
  {
    hide Decides, Notices;
  }

  lemma {:induction false} NoticesPrefix(frames: seq<Frame>, r: Route, i: nat, k: nat)
    requires i <= k <= |frames|
    ensures Notices(frames[..i], r) <= Notices(frames[..k], r)
    decreases k - i
  {
    if i < k {
      NoticesPrefix(frames, r, i, k - 1);
      assert frames[..k][..k - 1] == frames[..k - 1];
    }
  }

  lemma {:induction false} FindDecision(frames: seq<Frame>, r: Route, i: nat) returns (k: nat)
    requires i <= |frames| && forall j :: 0 <= j < i ==> !Decides(frames[j], r)
    ensures i <= k && DecidedAt(frames, r, k)
    decreases |frames| - i
  {
    if i == |frames| || Decides(frames[i], r) {
      k := i;
    } else {
      k := FindDecision(frames, r, i + 1);
    }
  }

  /** A notice the queue refuses is a proper part of what was to come. */
  lemma QueueFull(frames: seq<Frame>, r: Route, room: nat -> bool, list: ListReply, i: nat, delivered: seq<Notice>)
    returns (k: nat)
    requires !room(|delivered|)
    requires i < |frames| && Forwards(frames[i], r) && delivered == Notices(frames[..i], r)
    requires forall j :: 0 <= j < i ==> !Decides(frames[j], r)
    ensures ReadUntil(frames, r, room, list, k, TransportLost, delivered)
  {
    k := FindDecision(frames, r, i + 1);
    NoticesStep(frames, r, i);
    NoticesPrefix(frames, r, i + 1, k);
  }
}
