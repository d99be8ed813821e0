/** The scoped watch end to end: the vault's committed inventories, the producer task that turns
    commits into notices, a network that drops, repeats and reorders them, and a consumer that
    drives the tracker and performs every read it orders.

    Time is the number of commits: `hist[i]` is what a read sees after commit `i`.
 */
module WatchSystem {
  import opened Bytes
  import opened WatchTracker

  const MAX_SAFE_INTEGER := 0x1f_ffff_ffff_ffff

  /** The two digests a listing or a notice carries. */
  datatype Snap = Snap(view: Bytes, keys: Bytes)

  /** A notice and the commit its snapshot saw. */
  datatype Sent = Sent(sub: nat, notice: Notice, at: nat)

  /** The producer task of the open subscription. `dirty`: a commit it has not woken for.
      `working`: awake, its snapshot not yet taken. `failed`: its last snapshot failed. `ended`: it
      refused, or was told to stop. `top`: the last notice it sent. */
  datatype Producer = Producer(
    sub: nat, epoch: Bytes, last: Option<Snap>, seqNo: nat, dirty: bool, working: bool, failed: bool, ended: bool,
    top: nat)

  datatype Held = Held(view: Bytes, at: nat)

  /** `processed`: the last notice the tracker took, `done`: all it ever took. `pending`: it ordered
      an inventory read that has not happened yet. */
  datatype World = World(
    hist: seq<Snap>,
    producer: Producer,
    sent: seq<Sent>,
    tracker: State,
    held: Option<Held>,
    processed: Option<nat>,
    done: set<nat>,
    pending: bool)

  datatype Step =
    | Commit(snap: Snap)
    | Wake
    | TakeSnapshot
    | SnapshotFails
    | End
    | Open(epoch: Bytes)
    | Deliver(i: nat)
    | ReadInventory
    | Feed(call: Call)

  /** A notice the client's decoder takes; it refuses any other and the watch ends. */
  predicate Decodes(n: Notice) {
    n.epoch != [] && 1 <= n.seqNo <= MAX_SAFE_INTEGER
  }

  function Now(w: World): nat
    requires w.hist != []
  {
    |w.hist| - 1
  }

  predicate Enabled(w: World, step: Step)
    requires w.hist != []
  {
    match step
    case Commit(_) => true
    case Wake => w.producer.dirty && !w.producer.working && !w.producer.ended
    case TakeSnapshot => w.producer.working && w.producer.seqNo + 1 < U64
    case SnapshotFails => w.producer.working && w.producer.seqNo > 0
    case End => !w.producer.ended
    case Open(epoch) => !w.pending && epoch != []
    case Deliver(i) => i < |w.sent| && w.sent[i].sub == w.producer.sub && Decodes(w.sent[i].notice) && !w.pending
    case ReadInventory => true
    case Feed(call) => !call.Noticed? && !call.InventoryRead? && !call.Opened?
  }

  function Apply(w: World, step: Step): (r: World)
    requires w.hist != [] && Enabled(w, step)
    ensures r.hist != []
  {
    var p := w.producer;
    match step
    case Commit(snap) => w.(hist := w.hist + [snap], producer := p.(dirty := true))
    case Wake => w.(producer := p.(dirty := false, working := true))
    case TakeSnapshot =>
      var values := w.hist[Now(w)];
      if p.last == Some(values) then w.(producer := p.(working := false, failed := false))
      else
        var notice := Notice(p.epoch, p.seqNo + 1, values.view, values.keys);
        w.(producer := p.(last := Some(values), seqNo := p.seqNo + 1, working := false, failed := false,
                          top := |w.sent|),
           sent := w.sent + [Sent(p.sub, notice, Now(w))])
    case SnapshotFails => w.(producer := p.(working := false, failed := true))
    case End => w.(producer := p.(working := false, ended := true))
    case Open(epoch) =>
      w.(producer := Producer(p.sub + 1, epoch, None, 0, false, true, false, false, 0),
         tracker := Next(w.tracker, Opened), processed := None)
    case Deliver(i) =>
      var n := w.sent[i].notice;
      var a := Answer(w.tracker, Noticed(n)).value;
      w.(tracker := Next(w.tracker, Noticed(n)),
         processed := if a.Reread? then Some(i) else w.processed,
         done := if a.Reread? then w.done + {i} else w.done,
         pending := a.Reread? && a.inventory)
    case ReadInventory =>
      var view := w.hist[Now(w)].view;
      w.(held := Some(Held(view, Now(w))), tracker := Next(w.tracker, InventoryRead(view)), pending := false)
    case Feed(call) => w.(tracker := Next(w.tracker, call))
  }

  /** A vault before anything was watched: no producer runs. */
  function Start(snap: Snap): World {
    World([snap], Producer(0, [], None, 0, false, false, false, true, 0), [], INITIAL, None, None, {}, false)
  }

  ghost predicate Possible(snap: Snap, steps: seq<Step>)
    decreases |steps|, 0
  {
    steps == [] ||
    (Possible(snap, steps[..|steps| - 1]) && Enabled(After(snap, steps[..|steps| - 1]), steps[|steps| - 1]))
  }

  /** The world after a possible run. */
  ghost function After(snap: Snap, steps: seq<Step>): (w: World)
    requires Possible(snap, steps)
    ensures w.hist != []
    decreases |steps|, 1
  {
    if steps == [] then Start(snap)
    else Apply(After(snap, steps[..|steps| - 1]), steps[|steps| - 1])
  }

  // ---------------------------------------------------------------- the invariant

  ghost predicate SentOk(w: World, i: nat)
    requires i < |w.sent|
  {
    var s := w.sent[i];
    && s.at < |w.hist| && w.hist[s.at] == Snap(s.notice.view, s.notice.keys)
    && s.sub <= w.producer.sub
    && (s.sub == w.producer.sub ==> s.notice.epoch == w.producer.epoch && s.notice.seqNo <= w.producer.seqNo)
  }

  predicate Current(w: World, i: int) {
    0 <= i < |w.sent| && w.sent[i].sub == w.producer.sub
  }

  /** Within the open subscription, numbers follow the order of sending. */
  ghost predicate Numbered(w: World) {
    forall i, j :: i < j && Current(w, i) && Current(w, j) ==> w.sent[i].notice.seqNo < w.sent[j].notice.seqNo
  }

  /** The tracker took the notice, or what the consumer holds was read after its snapshot. */
  predicate Accounted(w: World, i: nat)
    requires i < |w.sent|
  {
    i in w.done || (w.held.Some? && w.sent[i].at <= w.held.value.at)
  }

  /** No notice up to the last processed one went by unnoticed. */
  ghost predicate NoneSkipped(w: World)
    requires w.processed.Some? && w.processed.value < |w.sent|
  {
    forall i :: Current(w, i) && w.sent[i].notice.seqNo <= w.sent[w.processed.value].notice.seqNo ==> Accounted(w, i)
  }

  /** What the consumer holds agrees with the notice, or was read after its snapshot. */
  predicate Covers(w: World, i: nat)
    requires i < |w.sent|
  {
    w.held.Some? && (w.held.value.view == w.sent[i].notice.view || w.held.value.at >= w.sent[i].at)
  }

  ghost predicate ProducerOk(w: World)
    requires w.hist != []
  {
    var p := w.producer;
    && (p.last.Some? <==> p.seqNo > 0)
    && (p.seqNo == 0 ==> p.working || p.ended) && (p.ended ==> !p.working)
    && (!p.dirty && !p.working && !p.failed && !p.ended ==> p.last == Some(w.hist[Now(w)]))
    && (p.seqNo > 0 ==>
          && p.top < |w.sent| && w.sent[p.top].sub == p.sub
          && p.last == Some(Snap(w.sent[p.top].notice.view, w.sent[p.top].notice.keys)))
  }

  function Number(n: Notice): (Bytes, u64) {
    (n.epoch, n.seqNo)
  }

  ghost predicate ConsumerOk(w: World) {
    && (w.held.None? <==> w.tracker.view.None?)
    && (w.held.Some? ==>
          && w.tracker.view == Some(w.held.value.view) && w.held.value.at < |w.hist|
          && w.hist[w.held.value.at].view == w.held.value.view)
    && (w.processed.None? ==> w.tracker.last.None?)
    && (w.processed.Some? ==>
          && Current(w, w.processed.value)
          && w.tracker.last == Some(Number(w.sent[w.processed.value].notice))
          && (!w.pending ==> Covers(w, w.processed.value) && NoneSkipped(w)))
  }

  ghost predicate Invariant(w: World) {
    && w.hist != [] && ProducerOk(w) && Numbered(w) && ConsumerOk(w)
    && forall i :: 0 <= i < |w.sent| ==> SentOk(w, i)
  }

  lemma StepKeepsSent(w: World, step: Step)
    requires Invariant(w) && Enabled(w, step)
    ensures forall i :: 0 <= i < |Apply(w, step).sent| ==> SentOk(Apply(w, step), i)
  {
    hide ProducerOk, ConsumerOk, Numbered;
    var r := Apply(w, step);
    forall i | 0 <= i < |r.sent| ensures SentOk(r, i) {
      if i < |w.sent| {
        assert SentOk(w, i);
      }
    }
  }

  lemma StepKeepsProducer(w: World, step: Step)
    requires Invariant(w) && Enabled(w, step)
    ensures ProducerOk(Apply(w, step))
  {
    hide Numbered, NoneSkipped, ConsumerOk;
  }

  lemma StepKeepsNumbers(w: World, step: Step)
    requires Invariant(w) && Enabled(w, step)
    ensures Numbered(Apply(w, step))
  {
    hide NoneSkipped, ConsumerOk, Covers;
    var r := Apply(w, step);
    forall i, j | i < j && Current(r, i) && Current(r, j)
      ensures r.sent[i].notice.seqNo < r.sent[j].notice.seqNo
    {
      assert SentOk(w, i);
      if j < |w.sent| {
        assert SentOk(w, j);
        assert Current(w, i) && Current(w, j);
      }
    }
  }

  /** The tracker takes the notice that directly follows the last one, or orders a read. */
  lemma DeliveryKeepsConsumer(w: World, k: nat)
    requires Invariant(w) && Enabled(w, Deliver(k))
    ensures ConsumerOk(Apply(w, Deliver(k)))
  {
    hide ProducerOk;
    var r := Apply(w, Deliver(k));
    assert SentOk(w, k) && Current(w, k);
    if !w.tracker.closed && !r.pending {
      var last := w.processed.value;
      assert SentOk(w, last);
      assert w.sent[k].notice.seqNo == w.sent[last].notice.seqNo + 1;
      forall i | Current(r, i) && r.sent[i].notice.seqNo <= r.sent[k].notice.seqNo
        ensures Accounted(r, i)
      {
        assert Current(w, i);
        assert i < k || k < i || i == k;
        if w.sent[i].notice.seqNo <= w.sent[last].notice.seqNo {
          assert Accounted(w, i);
        }
      }
      assert NoneSkipped(r);
    }
  }

  /** A read accounts for every notice sent so far. */
  lemma ReadKeepsConsumer(w: World)
    requires Invariant(w) && Enabled(w, ReadInventory)
    ensures ConsumerOk(Apply(w, ReadInventory))
  {
    hide ProducerOk, Numbered;
    var r := Apply(w, ReadInventory);
    forall i | 0 <= i < |w.sent| ensures Accounted(r, i) && Covers(r, i) {
      assert SentOk(w, i);
    }
  }

  lemma SnapshotKeepsConsumer(w: World)
    requires Invariant(w) && Enabled(w, TakeSnapshot)
    ensures ConsumerOk(Apply(w, TakeSnapshot))
  {
    hide ProducerOk, Numbered;
    var r := Apply(w, TakeSnapshot);
    if w.processed.Some? {
      var last := w.processed.value;
      assert SentOk(w, last);
      if !w.pending {
        forall i | Current(r, i) && r.sent[i].notice.seqNo <= r.sent[last].notice.seqNo
          ensures Accounted(r, i)
        {
          assert Current(w, i) && Accounted(w, i);
        }
      }
    }
  }

  lemma OtherStepsKeepConsumer(w: World, step: Step)
    requires Invariant(w) && Enabled(w, step)
    requires !step.Deliver? && !step.ReadInventory? && !step.TakeSnapshot?
    ensures ConsumerOk(Apply(w, step))
  {
    hide ProducerOk, Numbered;
    var r := Apply(w, step);
    if r.processed.Some? && !r.pending {
      forall i | Current(r, i) && r.sent[i].notice.seqNo <= r.sent[r.processed.value].notice.seqNo
        ensures Accounted(r, i)
      {
        assert Current(w, i) && Accounted(w, i);
      }
    }
  }

  lemma StepKeepsInvariant(w: World, step: Step)
    requires Invariant(w) && Enabled(w, step)
    ensures Invariant(Apply(w, step))
  {
    hide Enabled, Apply, ProducerOk, ConsumerOk, Numbered, SentOk;
    StepKeepsSent(w, step);
    StepKeepsProducer(w, step);
    StepKeepsNumbers(w, step);
    match step
    case Deliver(k) => DeliveryKeepsConsumer(w, k);
    case ReadInventory => ReadKeepsConsumer(w);
    case TakeSnapshot => SnapshotKeepsConsumer(w);
    case _ => OtherStepsKeepConsumer(w, step);
  }

  lemma {:induction false} RunsKeepInvariant(snap: Snap, steps: seq<Step>)
    requires Possible(snap, steps)
    ensures Invariant(After(snap, steps))
    decreases |steps|
  {
    if steps != [] {
      var before := steps[..|steps| - 1];
      RunsKeepInvariant(snap, before);
      StepKeepsInvariant(After(snap, before), steps[|steps| - 1]);
    }
  }

  // ---------------------------------------------------------------- what the consumer can rely on

  /** No missed change: in every run, once the ordered reads are done, the consumer's inventory is
      the one the last processed notice announced or one read after that notice's snapshot. */
  lemma NoMissedInventoryChange(snap: Snap, steps: seq<Step>)
    requires Possible(snap, steps)
    ensures
      var w := After(snap, steps);
      w.processed.Some? && !w.pending ==>
        && w.processed.value < |w.sent| && w.held.Some?
        && (w.held.value.view == w.sent[w.processed.value].notice.view
            || w.sent[w.processed.value].at <= w.held.value.at)
        && w.held.value.at < |w.hist| && w.hist[w.held.value.at].view == w.held.value.view
  {
    RunsKeepInvariant(snap, steps);
  }

  /** No skipped notice: once the ordered reads are done, every notice of the subscription numbered
      up to the last processed one was itself processed, or its change is in what the consumer
      holds, read after its snapshot. Whatever the network dropped or overtook left no gap. */
  lemma NoNoticeGoesMissing(snap: Snap, steps: seq<Step>, i: nat)
    requires Possible(snap, steps)
    requires
      var w := After(snap, steps);
      && w.processed.Some? && !w.pending && i < |w.sent| && w.sent[i].sub == w.producer.sub
      && w.processed.value < |w.sent| && w.sent[i].notice.seqNo <= w.sent[w.processed.value].notice.seqNo
    ensures
      var w := After(snap, steps);
      i in w.done || (w.held.Some? && w.sent[i].at <= w.held.value.at)
  {
    RunsKeepInvariant(snap, steps);
    assert Current(After(snap, steps), i);
  }

  /** Nothing in flight: the producer has seen every commit and the consumer its last notice. */
  predicate Settled(w: World) {
    !w.producer.dirty && !w.producer.working && !w.producer.failed && !w.producer.ended &&
    w.processed == Some(w.producer.top) && !w.pending
  }

  /** The view never comes back to a value it left. */
  ghost predicate NoReturn(hist: seq<Snap>) {
    forall i, j, k :: 0 <= i <= j <= k < |hist| && hist[i].view == hist[k].view ==> hist[j].view == hist[i].view
  }

  /** Once settled, the consumer holds the current inventory exactly when its last list read gave
      the view its last notice announced; if views never return to an earlier value it always does. */
  lemma SettledConsumerIsCurrentIff(snap: Snap, steps: seq<Step>)
    requires Possible(snap, steps) && Settled(After(snap, steps))
    ensures
      var w := After(snap, steps);
      && w.producer.top < |w.sent| && w.held.Some?
      && (w.held.value.view == w.hist[Now(w)].view <==> w.held.value.view == w.sent[w.producer.top].notice.view)
      && (NoReturn(w.hist) ==> w.held.value.view == w.hist[Now(w)].view)
  {
    RunsKeepInvariant(snap, steps);
    var w := After(snap, steps);
    var top, held := w.sent[w.producer.top], w.held.value;
    assert SentOk(w, w.producer.top);
    assert w.hist[top.at].view == w.hist[Now(w)].view && w.hist[held.at].view == held.view;
    assert held.view == top.notice.view || top.at <= held.at <= Now(w);
  }

  // ---------------------------------------------------------------- the exception is real

  function AbaRun(a: Snap, b: Snap): seq<Step> {
    [Open("e"), TakeSnapshot, Deliver(0), Commit(b), ReadInventory, Commit(a), Wake, TakeSnapshot]
  }

  /** The worlds that run goes through. */
  function AbaWorld(a: Snap, b: Snap, k: nat): World {
    var p := Producer(1, "e", Some(a), 1, false, false, false, false, 0);
    var sent := [Sent(1, Notice("e", 1, a.view, a.keys), 0)];
    var t := State(None, None, Some(("e", 1)), true, false, false);
    var read :=
      World([a, b], p.(dirty := true), sent, t.(view := Some(b.view)), Some(Held(b.view, 1)), Some(0), {0}, false);
    match k
    case 0 => Start(a)
    case 1 =>
      World([a], Producer(1, "e", None, 0, false, true, false, false, 0), [], INITIAL, None, None, {}, false)
    case 2 => World([a], p, sent, INITIAL, None, None, {}, false)
    case 3 => World([a], p, sent, t, None, Some(0), {0}, true)
    case 4 => World([a, b], p.(dirty := true), sent, t, None, Some(0), {0}, true)
    case 5 => read
    case 6 => read.(hist := [a, b, a])
    case 7 => read.(hist := [a, b, a], producer := p.(working := true))
    case _ => read.(hist := [a, b, a], producer := p)
  }

  lemma AbaStep(a: Snap, b: Snap, k: nat)
    requires k < 8
    ensures AbaWorld(a, b, k).hist != []
    ensures Enabled(AbaWorld(a, b, k), AbaRun(a, b)[k])
    ensures Apply(AbaWorld(a, b, k), AbaRun(a, b)[k]) == AbaWorld(a, b, k + 1)
  {
  }

  lemma {:induction false} AbaReaches(a: Snap, b: Snap, k: nat)
    requires k <= 8
    ensures Possible(a, AbaRun(a, b)[..k]) && After(a, AbaRun(a, b)[..k]) == AbaWorld(a, b, k)
  {
    hide AbaWorld, Apply, Enabled, AbaRun;
    if k == 0 {
      NoSteps(a);
      AbaStart(a, b);
    } else {
      AbaReaches(a, b, k - 1);
      AbaStep(a, b, k - 1);
      AbaStart(a, b);
      Extend(a, AbaRun(a, b), k - 1, AbaWorld(a, b, k - 1), AbaWorld(a, b, k));
    }
  }

  lemma AbaStart(a: Snap, b: Snap)
    ensures |AbaRun(a, b)| == 8 && AbaRun(a, b)[..0] == [] && AbaWorld(a, b, 0) == Start(a)
  {
  }

  /** A view that flips and flips back within one wake of the producer: the list read the first
      notice ordered falls in between, no further notice is sent, and the settled consumer holds
      the view that is gone. */
  lemma SettledConsumerCanBeStale(a: Snap, b: Snap)
    requires a.view != b.view
    ensures
      var steps := AbaRun(a, b);
      Possible(a, steps) &&
      var w := After(a, steps);
      Settled(w) && w.held.Some? && w.held.value.view == b.view && w.hist[Now(w)] == a
  {
    hide Possible, After;
    AbaReaches(a, b, 8);
    assert AbaRun(a, b)[..8] == AbaRun(a, b);
  }

  lemma NoSteps(snap: Snap)
    ensures Possible(snap, []) && After(snap, []) == Start(snap)
  {
  }

  lemma Extend(snap: Snap, steps: seq<Step>, k: nat, w: World, r: World)
    requires k < |steps| && Possible(snap, steps[..k]) && After(snap, steps[..k]) == w
    requires Enabled(w, steps[k]) && Apply(w, steps[k]) == r
    ensures Possible(snap, steps[..k + 1]) && After(snap, steps[..k + 1]) == r
  {
    assert steps[..k + 1][..k] == steps[..k];
  }
}
