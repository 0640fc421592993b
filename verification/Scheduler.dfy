/**
 * How `ChunkDatabase` runs operations (src/engine/chunkDatabase.ts): one drain at a time takes the
 * cross-tab lock, opens a session, runs batches off the queue, closes the session and gives the lock
 * back. Arrivals and outcomes come in any order; a step is what runs between two awaits.
 */
module Scheduler {
  import opened Prelude

  /** Where an operation is; it has `Ran` when its batch has settled it, with its own outcome or with the
      session's refusal, and is `Rejected` when the drain gave up on it before it was started. */
  datatype Place = Queued | Running | Ran | Rejected

  /** `settled` counts how often the operation's promise was settled. */
  datatype Op = Op(shared: bool, place: Place, settled: nat)

  /** Where `#drain` is. */
  datatype Drain =
    | NoDrain
    | Locking                       // asked for the cross-tab lock
    | Opening
    | Batch(running: set<nat>)      // operations of the current batch that have not finished
    | Closing
    | Unlocking(failed: bool)
    | Leaving                       // found the queue empty; `#draining` not yet cleared

  datatype State = State(queue: seq<nat>, ops: seq<Op>, drain: Drain, locked: bool, open: bool, started: seq<nat>)

  const IDLE: State := State([], [], NoDrain, false, false, [])

  datatype Step =
    | Arrive(shared: bool)
    | LockGranted
    | LockRefused
    | Opened(ok: bool)
    | Finish(k: nat)
    | Closed(ok: bool)
    | Released
    | Cleared

  // -------------------------------------------------------------------- the code

  function SettleOp(ops: seq<Op>, k: nat, how: Place): seq<Op>
    requires k < |ops|
  {
    ops[k := ops[k].(place := how, settled := ops[k].settled + 1)]
  }

  /** Reject everything that waits. */
  function RejectAll(ops: seq<Op>, queue: seq<nat>): seq<Op> {
    if queue == [] then ops
    else
      var front := RejectAll(ops, queue[..|queue| - 1]);
      var k := queue[|queue| - 1];
      if k < |front| then SettleOp(front, k, Rejected) else front
  }

  function StartOps(ops: seq<Op>, batch: seq<nat>): seq<Op> {
    if batch == [] then ops
    else
      var front := StartOps(ops, batch[..|batch| - 1]);
      var k := batch[|batch| - 1];
      if k < |front| then front[k := front[k].(place := Running)] else front
  }

  predicate SharedAt(ops: seq<Op>, queue: seq<nat>, p: nat)
    requires p < |queue|
  {
    queue[p] < |ops| && ops[queue[p]].shared
  }

  /** How many shared operations lead the queue from `p` on. */
  function SharedRun(ops: seq<Op>, queue: seq<nat>, p: nat): (n: nat)
    requires p <= |queue|
    ensures p + n <= |queue|
    decreases |queue| - p
  {
    if p < |queue| && SharedAt(ops, queue, p) then 1 + SharedRun(ops, queue, p + 1) else 0
  }

  /** The next exclusive operation alone, or every leading shared one. */
  function BatchSize(ops: seq<Op>, queue: seq<nat>): (n: nat)
    ensures n <= |queue|
    ensures queue != [] ==> n > 0
  {
    if queue == [] then 0 else if !SharedAt(ops, queue, 0) then 1 else SharedRun(ops, queue, 0)
  }

  function Members(batch: seq<nat>): set<nat> {
    set k | k in batch
  }

  function NextBatch(s: State): State {
    var n := BatchSize(s.ops, s.queue);
    if n == 0 then s.(drain := Closing)
    else
      s.(queue := s.queue[n..], ops := StartOps(s.ops, s.queue[..n]), started := s.started + s.queue[..n],
         drain := Batch(Members(s.queue[..n])))
  }

  /** The loop test of `#drain`. */
  function LoopTest(s: State): State {
    s.(drain := if s.queue != [] then Locking else Leaving)
  }

  function Fail(s: State): State {
    LoopTest(s.(ops := RejectAll(s.ops, s.queue), queue := []))
  }

  predicate Enabled(s: State, e: Step) {
    match e
    case Arrive(_) => true
    case LockGranted => s.drain.Locking?
    case LockRefused => s.drain.Locking?
    case Opened(_) => s.drain.Opening?
    case Finish(k) => s.drain.Batch? && k in s.drain.running && k < |s.ops|
    case Closed(_) => s.drain.Closing?
    case Released => s.drain.Unlocking?
    case Cleared => s.drain.Leaving?
  }

  function ArriveStep(s: State, shared: bool): State {
    var t := s.(queue := s.queue + [|s.ops|], ops := s.ops + [Op(shared, Queued, 0)]);
    if s.drain.NoDrain? then t.(drain := Locking) else t
  }

  function FinishStep(s: State, k: nat): State
    requires s.drain.Batch? && k < |s.ops|
  {
    var t := s.(ops := SettleOp(s.ops, k, Ran), drain := Batch(s.drain.running - {k}));
    if s.drain.running - {k} == {} then NextBatch(t) else t
  }

  function Next(s: State, e: Step): State
    requires Enabled(s, e)
  {
    match e
    case Arrive(shared) => ArriveStep(s, shared)
    case LockGranted => s.(drain := Opening, locked := true)
    case LockRefused => Fail(s)
    case Opened(ok) => if ok then NextBatch(s.(open := true)) else s.(drain := Unlocking(true))
    case Finish(k) => FinishStep(s, k)
    case Closed(ok) => s.(drain := Unlocking(!ok), open := false)
    case Released => if s.drain.failed then Fail(s.(locked := false)) else LoopTest(s.(locked := false))
    case Cleared => s.(drain := NoDrain)
  }

  function After(run: seq<Step>): State {
    if run == [] then IDLE
    else
      var before := After(run[..|run| - 1]);
      if Enabled(before, run[|run| - 1]) then Next(before, run[|run| - 1]) else before
  }

  /** The drain's own steps, in place. */
  class ChunkDatabase {
    var queue: seq<nat>
    var ops: seq<Op>
    var drain: Drain
    var locked: bool
    var open: bool
    var started: seq<nat>

    ghost function Value(): State
      reads this
    {
      State(queue, ops, drain, locked, open, started)
    }

    constructor ()
      ensures Value() == IDLE
    {
      queue, ops, drain, locked, open, started := [], [], NoDrain, false, false, [];
    }

    /** `run`: enqueue, and start a drain unless one is going. */
    method Run(shared: bool) returns (starts: bool)
      modifies this
      ensures Value() == ArriveStep(old(Value()), shared) && starts == old(drain).NoDrain?
    {
      queue, ops := queue + [|ops|], ops + [Op(shared, Queued, 0)];
      starts := drain.NoDrain?;
      if starts {
        drain := Locking;
      }
    }

    /** `#nextBatch`: splice the batch off the front. */
    method TakeBatch() returns (batch: seq<nat>)
      modifies this`queue
      ensures batch == old(queue)[..BatchSize(ops, old(queue))] && queue == old(queue)[BatchSize(ops, old(queue))..]
    {
      if queue == [] {
        return [];
      }
      if !(queue[0] < |ops| && ops[queue[0]].shared) {
        batch, queue := queue[..1], queue[1..];
        return;
      }
      var end := 0;
      while end < |queue| && queue[end] < |ops| && ops[queue[end]].shared
        invariant end <= |queue| && SharedRun(ops, queue, 0) == end + SharedRun(ops, queue, end)
      {
        end := end + 1;
      }
      batch, queue := queue[..end], queue[end..];
    }

    /** The session's loop: the next batch is started, or the session closes. */
    method StartBatch()
      modifies this
      ensures Value() == NextBatch(old(Value()))
    {
      var batch := TakeBatch();
      if batch == [] {
        drain := Closing;
        return;
      }
      for i := 0 to |batch|
        invariant ops == StartOps(old(ops), batch[..i])
        invariant queue == old(queue)[BatchSize(old(ops), old(queue))..]
        invariant drain == old(drain) && locked == old(locked) && open == old(open) && started == old(started)
      {
        assert batch[..i + 1][..i] == batch[..i];
        if batch[i] < |ops| {
          ops := ops[batch[i] := ops[batch[i]].(place := Running)];
        }
      }
      assert batch[..|batch|] == batch;
      drain, started := Batch(Members(batch)), started + batch;
    }

    method RejectQueued()
      modifies this`ops, this`queue
      ensures ops == RejectAll(old(ops), old(queue)) && queue == []
    {
      for i := 0 to |queue|
        invariant queue == old(queue)
        invariant ops == RejectAll(old(ops), queue[..i])
      {
        assert queue[..i + 1][..i] == queue[..i];
        if queue[i] < |ops| {
          ops := SettleOp(ops, queue[i], Rejected);
        }
      }
      assert queue[..|queue|] == queue;
      queue := [];
    }

    /** A session that fails: everything that waits is rejected, and the drain tests its queue again. */
    method FailSession()
      modifies this
      ensures Value() == Fail(old(Value()))
    {
      RejectQueued();
      drain := if queue != [] then Locking else Leaving;
    }
  }

  // -------------------------------------------------------------------- invariant

  predicate QueueOk(s: State) {
    && (forall p :: 0 <= p < |s.queue| ==> s.queue[p] < |s.ops| && s.ops[s.queue[p]].place.Queued?)
    && (forall k :: 0 <= k < |s.ops| && s.ops[k].place.Queued? ==> k in s.queue)
  }

  predicate RunningOk(s: State) {
    forall k :: 0 <= k < |s.ops| ==> (s.ops[k].place.Running? <==> s.drain.Batch? && k in s.drain.running)
  }

  predicate CountsOk(s: State) {
    forall k :: 0 <= k < |s.ops| ==>
      s.ops[k].settled == if s.ops[k].place.Queued? || s.ops[k].place.Running? then 0 else 1
  }

  /** Every operation is queued, running or settled, in exactly one of the three and counted so. */
  predicate PlacesOk(s: State) {
    QueueOk(s) && RunningOk(s) && CountsOk(s)
  }

  predicate Increasing(xs: seq<nat>) {
    forall i, j :: 0 <= i < j < |xs| ==> xs[i] < xs[j]
  }

  /** Started before waiting, both in arrival order. */
  predicate InOrder(s: State) {
    && Increasing(s.started) && Increasing(s.queue)
    && (forall i, p :: 0 <= i < |s.started| && 0 <= p < |s.queue| ==> s.started[i] < s.queue[p])
    && (forall i :: 0 <= i < |s.started| ==> s.started[i] < |s.ops|)
  }

  /** What runs together is shared, or is one operation. */
  predicate BatchOk(s: State) {
    s.drain.Batch? ==>
      && (forall k <- s.drain.running :: k < |s.ops|)
      && (forall j, k :: j in s.drain.running && k in s.drain.running && j != k ==> s.ops[j].shared && s.ops[k].shared)
  }

  /** The session is open only under the lock. */
  predicate LocksOk(s: State) {
    && (s.open <==> s.drain.Batch? || s.drain.Closing?)
    && (s.locked <==> s.drain.Opening? || s.drain.Batch? || s.drain.Closing? || s.drain.Unlocking?)
  }

  predicate Sound(s: State) {
    PlacesOk(s) && InOrder(s) && BatchOk(s) && LocksOk(s)
  }

  lemma {:induction false} Started(ops: seq<Op>, batch: seq<nat>)
    ensures |StartOps(ops, batch)| == |ops|
    ensures forall k :: 0 <= k < |ops| ==>
              StartOps(ops, batch)[k] == if k in batch then ops[k].(place := Running) else ops[k]
  {
    if batch != [] {
      var front := batch[..|batch| - 1];
      Started(ops, front);
      assert forall k :: k in batch <==> k in front || k == batch[|batch| - 1];
    }
  }

  lemma {:induction false} RejectedAll(ops: seq<Op>, queue: seq<nat>)
    requires Increasing(queue)
    ensures |RejectAll(ops, queue)| == |ops|
    ensures forall k :: 0 <= k < |ops| ==>
              RejectAll(ops, queue)[k] ==
              if k in queue then ops[k].(place := Rejected, settled := ops[k].settled + 1) else ops[k]
  {
    if queue != [] {
      var front, last := queue[..|queue| - 1], queue[|queue| - 1];
      RejectedAll(ops, front);
      assert forall k :: k in queue <==> k in front || k == last;
      assert last !in front;
    }
  }

  /** Everything in a batch of more than one is shared. */
  lemma {:induction false} SharedRunIsShared(ops: seq<Op>, queue: seq<nat>, p: nat)
    requires p <= |queue|
    ensures forall q :: p <= q < p + SharedRun(ops, queue, p) ==> SharedAt(ops, queue, q)
    decreases |queue| - p
  {
    if p < |queue| && SharedAt(ops, queue, p) {
      SharedRunIsShared(ops, queue, p + 1);
    }
  }

  lemma FailIsSound(s: State)
    requires PlacesOk(s) && InOrder(s) && !s.drain.Batch? && !s.open && !s.locked
    ensures Sound(Fail(s)) && Fail(s).queue == []
  {
    RejectedAll(s.ops, s.queue);
  }

  /** Between batches: nothing runs, the session is open. */
  lemma NextBatchQueue(s: State)
    requires QueueOk(s) && Increasing(s.queue)
    ensures QueueOk(NextBatch(s))
  {
    var n, t := BatchSize(s.ops, s.queue), NextBatch(s);
    if n > 0 {
      Started(s.ops, s.queue[..n]);
      forall p | 0 <= p < |t.queue| ensures t.queue[p] < |t.ops| && t.ops[t.queue[p]].place.Queued? {
        assert t.queue[p] == s.queue[n + p];
        assert t.queue[p] !in s.queue[..n];
      }
      forall k | 0 <= k < |t.ops| && t.ops[k].place.Queued? ensures k in t.queue {
        assert s.ops[k].place.Queued? && k !in s.queue[..n];
        SplitMember(s.queue, n, k);
      }
    }
  }

  lemma SplitMember(xs: seq<nat>, n: nat, x: nat)
    requires n <= |xs| && x in xs && x !in xs[..n]
    ensures x in xs[n..]
  {
    assert xs == xs[..n] + xs[n..];
  }

  lemma NextBatchPlaces(s: State)
    requires PlacesOk(s) && InOrder(s) && s.drain.Batch? && s.drain.running == {}
    ensures PlacesOk(NextBatch(s))
  {
    Started(s.ops, s.queue[..BatchSize(s.ops, s.queue)]);
    NextBatchQueue(s);
  }

  lemma IncreasingParts(a: seq<nat>, b: seq<nat>, n: nat)
    requires Increasing(a) && Increasing(b) && n <= |b|
    requires forall i, p :: 0 <= i < |a| && 0 <= p < |b| ==> a[i] < b[p]
    ensures Increasing(a + b[..n]) && Increasing(b[n..])
    ensures forall i, p :: 0 <= i < |a + b[..n]| && 0 <= p < |b[n..]| ==> (a + b[..n])[i] < b[n..][p]
  {
  }

  lemma NextBatchOrder(s: State)
    requires InOrder(s) && (forall p :: 0 <= p < |s.queue| ==> s.queue[p] < |s.ops|)
    ensures InOrder(NextBatch(s))
  {
    var n := BatchSize(s.ops, s.queue);
    Started(s.ops, s.queue[..n]);
    IncreasingParts(s.started, s.queue, n);
  }

  lemma NextBatchKinds(s: State)
    requires InOrder(s) && (forall p :: 0 <= p < |s.queue| ==> s.queue[p] < |s.ops|)
    ensures BatchOk(NextBatch(s))
  {
    var n, t := BatchSize(s.ops, s.queue), NextBatch(s);
    Started(s.ops, s.queue[..n]);
    SharedRunIsShared(s.ops, s.queue, 0);
    if n > 0 {
      forall j, k | j in t.drain.running && k in t.drain.running && j != k ensures t.ops[j].shared && t.ops[k].shared {
        var p :| 0 <= p < n && s.queue[..n][p] == j;
        var q :| 0 <= q < n && s.queue[..n][q] == k;
        assert n > 1 && SharedAt(s.ops, s.queue, p) && SharedAt(s.ops, s.queue, q);
      }
    }
  }

  lemma NextBatchIsSound(s: State)
    requires PlacesOk(s) && InOrder(s) && s.drain.Batch? && s.drain.running == {} && s.open && s.locked
    ensures Sound(NextBatch(s))
  {
    NextBatchPlaces(s);
    NextBatchOrder(s);
    NextBatchKinds(s);
  }

  lemma OpenedIsSound(s: State)
    requires Sound(s) && s.drain.Opening?
    ensures Sound(NextBatch(s.(open := true)))
  {
    var t := s.(open := true, drain := Batch({}));
    NextBatchIsSound(t);
    assert NextBatch(t) == NextBatch(s.(open := true));
  }

  lemma FinishIsSound(s: State, k: nat)
    requires Sound(s) && s.drain.Batch? && k in s.drain.running && k < |s.ops|
    ensures Sound(FinishStep(s, k))
  {
    var t := s.(ops := SettleOp(s.ops, k, Ran), drain := Batch(s.drain.running - {k}));
    assert PlacesOk(t) && InOrder(t);
    if s.drain.running - {k} == {} {
      NextBatchIsSound(t);
    }
  }

  lemma ArrivePlaces(s: State, shared: bool)
    requires PlacesOk(s) && BatchOk(s)
    ensures PlacesOk(ArriveStep(s, shared))
  {
    var t := ArriveStep(s, shared);
    assert forall p :: 0 <= p < |s.queue| ==> t.queue[p] == s.queue[p];
    forall k | 0 <= k < |t.ops| && t.ops[k].place.Queued? ensures k in t.queue {
      if k < |s.ops| { assert k in s.queue; } else { assert t.queue[|s.queue|] == k; }
    }
  }

  lemma ArriveIsSound(s: State, shared: bool)
    requires Sound(s)
    ensures Sound(ArriveStep(s, shared))
  {
    ArrivePlaces(s, shared);
    ArriveOrder(s, shared);
    ArriveKinds(s, shared);
  }

  lemma ArriveOrder(s: State, shared: bool)
    requires InOrder(s) && QueueOk(s)
    ensures InOrder(ArriveStep(s, shared))
  {
    var t := ArriveStep(s, shared);
    assert forall p :: 0 <= p < |s.queue| ==> s.queue[p] < |s.ops|;
    assert t.started == s.started && t.queue == s.queue + [|s.ops|] && |t.ops| == |s.ops| + 1;
    assert Increasing(t.queue);
  }

  lemma ArriveKinds(s: State, shared: bool)
    requires BatchOk(s) && LocksOk(s)
    ensures BatchOk(ArriveStep(s, shared)) && LocksOk(ArriveStep(s, shared))
  {
    assert forall k :: 0 <= k < |s.ops| ==> ArriveStep(s, shared).ops[k] == s.ops[k];
  }

  lemma NextIsSound(s: State, e: Step)
    requires Sound(s) && Enabled(s, e)
    ensures Sound(Next(s, e))
  {
    match e
    case Arrive(shared) => ArriveIsSound(s, shared);
    case LockGranted =>
    case LockRefused => FailIsSound(s);
    case Opened(ok) => if ok { OpenedIsSound(s); }
    case Finish(k) => FinishIsSound(s, k);
    case Closed(ok) =>
    case Released => if s.drain.failed { FailIsSound(s.(locked := false)); }
    case Cleared =>
  }

  lemma {:induction false} RunIsSound(run: seq<Step>)
    ensures Sound(After(run))
  {
    if run != [] {
      RunIsSound(run[..|run| - 1]);
      if Enabled(After(run[..|run| - 1]), run[|run| - 1]) {
        NextIsSound(After(run[..|run| - 1]), run[|run| - 1]);
      }
    }
  }

  // --------------------------------------------------------------------- guarantees

  /** Operations start in arrival order, each at most once. */
  lemma StartsInArrivalOrder(run: seq<Step>)
    ensures Increasing(After(run).started)
  {
    RunIsSound(run);
  }

  /** An exclusive operation never runs beside another one. */
  lemma ExclusiveRunsAlone(run: seq<Step>, j: nat, k: nat)
    requires j < |After(run).ops| && k < |After(run).ops| && j != k
    requires After(run).ops[j].place.Running? && After(run).ops[k].place.Running?
    ensures After(run).ops[j].shared && After(run).ops[k].shared
  {
    RunIsSound(run);
  }

  /** An operation runs only in an open session, and a session is open only under the cross-tab lock. */
  lemma ClosedBeforeReleased(run: seq<Step>)
    ensures After(run).open ==> After(run).locked
    ensures forall k :: 0 <= k < |After(run).ops| && After(run).ops[k].place.Running? ==> After(run).open
  {
    RunIsSound(run);
  }

  /** No operation is settled twice, and one that is no longer queued or running is settled. */
  lemma SettledAtMostOnce(run: seq<Step>, k: nat)
    requires k < |After(run).ops|
    ensures After(run).ops[k].settled <= 1
    ensures After(run).ops[k].settled == 1 <==> k !in After(run).queue && !After(run).ops[k].place.Running?
  {
    RunIsSound(run);
  }

  /** An arrival between the drain's last look at the queue and the clearing of `#draining`. */
  predicate ArrivesTooLate(s: State, e: Step) {
    e.Arrive? && s.drain.Leaving?
  }

  /** Nothing waits without a drain to serve it. */
  predicate Served(s: State) {
    s.drain.NoDrain? || s.drain.Leaving? ==> s.queue == []
  }

  lemma NextKeepsServed(s: State, e: Step)
    requires Sound(s) && Served(s) && Enabled(s, e)
    ensures Served(Next(s, e)) <==> !ArrivesTooLate(s, e)
  {
    match e
    case LockRefused => FailIsSound(s);
    case Released => if s.drain.failed { FailIsSound(s.(locked := false)); }
    case _ =>
  }

  predicate Timely(run: seq<Step>) {
    run == [] || (Timely(run[..|run| - 1]) && !ArrivesTooLate(After(run[..|run| - 1]), run[|run| - 1]))
  }

  lemma {:induction false} TimelyIsServed(run: seq<Step>)
    requires Timely(run)
    ensures Served(After(run))
  {
    if run != [] {
      TimelyIsServed(run[..|run| - 1]);
      RunIsSound(run[..|run| - 1]);
      if Enabled(After(run[..|run| - 1]), run[|run| - 1]) {
        NextKeepsServed(After(run[..|run| - 1]), run[|run| - 1]);
      }
    }
  }

  /** With timely arrivals, every operation has been settled exactly once when the drain is over. */
  lemma EverythingSettlesExactlyOnce(run: seq<Step>, k: nat)
    requires Timely(run) && After(run).drain.NoDrain? && k < |After(run).ops|
    ensures After(run).ops[k].settled == 1
  {
    RunIsSound(run);
    TimelyIsServed(run);
  }

  /** A late arrival is stranded: the drain ends and leaves it queued. */
  lemma LateArrivalsAreStranded(run: seq<Step>, shared: bool)
    requires Timely(run) && After(run).drain.Leaving?
    ensures var s := After(run + [Arrive(shared), Cleared]);
            s.drain.NoDrain? && |s.queue| == 1 && s.queue[0] < |s.ops| && s.ops[s.queue[0]].place.Queued?
  {
    TimelyIsServed(run);
    var more := run + [Arrive(shared), Cleared];
    assert more[..|more| - 1] == run + [Arrive(shared)];
    assert (run + [Arrive(shared)])[..|run|] == run;
  }

  // ------------------------------------------------------------------ runs and refusals

  /** Whether the session is open: the last that storage did was to open, and it worked. */
  predicate SessionOpen(run: seq<Step>) {
    if run == [] then false
    else
      var front, last := run[..|run| - 1], run[|run| - 1];
      if !Enabled(After(front), last) then SessionOpen(front)
      else
        match last
        case Opened(ok) => ok
        case Closed(_) => false
        case _ => SessionOpen(front)
  }

  /** Whether the session has failed: the last that storage did was to open or to close, and it threw. */
  predicate SessionFailed(run: seq<Step>) {
    if run == [] then false
    else
      var front, last := run[..|run| - 1], run[|run| - 1];
      if !Enabled(After(front), last) then SessionFailed(front)
      else
        match last
        case Opened(ok) => !ok
        case Closed(ok) => !ok
        case _ => SessionFailed(front)
  }

  lemma {:induction false} SessionsAsRecorded(run: seq<Step>)
    ensures After(run).open <==> SessionOpen(run)
    ensures After(run).drain.Unlocking? ==> (After(run).drain.failed <==> SessionFailed(run))
  {
    if run != [] {
      SessionsAsRecorded(run[..|run| - 1]);
      RunIsSound(run[..|run| - 1]);
    }
  }

  /** A batch is taken when storage has opened, and when the last running operation finishes. */
  predicate BatchDue(s: State, e: Step) {
    e == Opened(true)
    || (e.Finish? && forall j :: 0 <= j < |s.ops| && s.ops[j].place.Running? ==> j == e.k)
  }

  /** Nothing exclusive waits before the operation, and nothing at all if it is exclusive itself. */
  predicate NextInLine(ops: seq<Op>, k: nat)
    requires k < |ops|
  {
    forall j :: 0 <= j < k && ops[j].place.Queued? ==> ops[j].shared && ops[k].shared
  }

  /** The shared run ends before an exclusive operation or with the queue. */
  lemma {:induction false} SharedRunIsMaximal(ops: seq<Op>, queue: seq<nat>, p: nat)
    requires p <= |queue|
    ensures var q := p + SharedRun(ops, queue, p); q < |queue| ==> !SharedAt(ops, queue, q)
    decreases |queue| - p
  {
    if p < |queue| && SharedAt(ops, queue, p) {
      SharedRunIsMaximal(ops, queue, p + 1);
    }
  }

  lemma InTheBatch(s: State, p: nat)
    requires QueueOk(s) && Increasing(s.queue) && p < BatchSize(s.ops, s.queue)
    ensures NextInLine(s.ops, s.queue[p])
  {
    SharedRunIsShared(s.ops, s.queue, 0);
    var k := s.queue[p];
    forall j | 0 <= j < k && s.ops[j].place.Queued? ensures s.ops[j].shared && s.ops[k].shared {
      var q :| 0 <= q < |s.queue| && s.queue[q] == j;
      assert q < p && SharedAt(s.ops, s.queue, q) && SharedAt(s.ops, s.queue, p);
    }
  }

  lemma BehindTheBatch(s: State, p: nat)
    requires QueueOk(s) && Increasing(s.queue) && BatchSize(s.ops, s.queue) <= p < |s.queue|
    ensures !NextInLine(s.ops, s.queue[p])
  {
    var n := BatchSize(s.ops, s.queue);
    SharedRunIsMaximal(s.ops, s.queue, 0);
    assert s.queue[0] < s.queue[p];
    if SharedAt(s.ops, s.queue, 0) {
      assert !SharedAt(s.ops, s.queue, n) && s.queue[n] <= s.queue[p];
    }
  }

  /** The batch is exactly what is next in line. */
  lemma BatchIsNextInLine(s: State, k: nat)
    requires QueueOk(s) && Increasing(s.queue) && k < |s.ops|
    ensures k in s.queue[..BatchSize(s.ops, s.queue)] <==> s.ops[k].place.Queued? && NextInLine(s.ops, k)
  {
    var n := BatchSize(s.ops, s.queue);
    if s.ops[k].place.Queued? {
      var p :| 0 <= p < |s.queue| && s.queue[p] == k;
      if p < n {
        assert s.queue[..n][p] == k;
        InTheBatch(s, p);
      } else {
        BehindTheBatch(s, p);
        assert forall q :: 0 <= q < n ==> s.queue[q] != k;
      }
    }
  }

  /** What a batch that is due does to an operation. */
  lemma NextBatchStarts(s: State, k: nat)
    requires QueueOk(s) && Increasing(s.queue) && k < |s.ops|
    ensures k < |NextBatch(s).ops|
    ensures NextBatch(s).ops[k] ==
            if s.ops[k].place.Queued? && NextInLine(s.ops, k) then s.ops[k].(place := Running) else s.ops[k]
  {
    BatchIsNextInLine(s, k);
    Started(s.ops, s.queue[..BatchSize(s.ops, s.queue)]);
  }

  /** What one step of a run makes of an operation: it is started with what is next in line when a batch is
      due, it has run when it finishes, and it is rejected when it waits and the lock is refused or is given
      back after a session that failed. Nothing else happens to it. */
  lemma StepMovesExactly(run: seq<Step>, e: Step, k: nat)
    requires k < |After(run).ops| && Enabled(After(run), e)
    ensures var s := After(run);
            k < |After(run + [e]).ops|
            && After(run + [e]).ops[k].shared == s.ops[k].shared
            && After(run + [e]).ops[k].place ==
               if s.ops[k].place.Queued? && (e.LockRefused? || (e.Released? && SessionFailed(run))) then Rejected
               else if s.ops[k].place.Queued? && BatchDue(s, e) && NextInLine(s.ops, k) then Running
               else if e == Finish(k) then Ran
               else s.ops[k].place
  {
    var s := After(run);
    assert (run + [e])[..|run|] == run;
    RunIsSound(run);
    SessionsAsRecorded(run);
    match e
    case Opened(ok) => if ok { NextBatchStarts(s.(open := true), k); }
    case Finish(j) => FinishMoves(s, j, k);
    case LockRefused => RejectedAll(s.ops, s.queue);
    case Released => RejectedAll(s.ops, s.queue);
    case _ =>
  }

  /** Each arrival adds one operation, which waits. */
  lemma OnlyArrivalsAdd(run: seq<Step>, e: Step)
    requires Enabled(After(run), e)
    ensures var s, t := After(run), After(run + [e]);
            |t.ops| == |s.ops| + (if e.Arrive? then 1 else 0)
            && (e.Arrive? ==> t.ops[|s.ops|] == Op(e.shared, Queued, 0))
  {
    var s := After(run);
    assert (run + [e])[..|run|] == run;
    RunIsSound(run);
    RejectedAll(s.ops, s.queue);
    Started(s.ops, s.queue[..BatchSize(s.ops, s.queue)]);
    if e.Finish? {
      var ops := SettleOp(s.ops, e.k, Ran);
      Started(ops, s.queue[..BatchSize(ops, s.queue)]);
    }
  }

  lemma LastToFinish(s: State, j: nat)
    requires RunningOk(s) && BatchOk(s) && Enabled(s, Finish(j))
    ensures s.drain.running - {j} == {} <==> BatchDue(s, Finish(j))
  {
    if s.drain.running - {j} != {} {
      var i :| i in s.drain.running - {j};
      assert s.ops[i].place.Running?;
    } else {
      forall i | 0 <= i < |s.ops| && s.ops[i].place.Running? ensures i == j {
        assert i in s.drain.running && i !in s.drain.running - {j};
      }
    }
  }

  lemma FinishMoves(s: State, j: nat, k: nat)
    requires Sound(s) && Enabled(s, Finish(j)) && k < |s.ops|
    ensures k < |FinishStep(s, j).ops| && FinishStep(s, j).ops[k].shared == s.ops[k].shared
    ensures FinishStep(s, j).ops[k].place ==
            if s.ops[k].place.Queued? && BatchDue(s, Finish(j)) && NextInLine(s.ops, k) then Running
            else if j == k then Ran
            else s.ops[k].place
  {
    var t := s.(ops := SettleOp(s.ops, j, Ran), drain := Batch(s.drain.running - {j}));
    assert s.ops[j].place.Running?;
    assert forall i :: 0 <= i < |s.ops| ==> t.ops[i].shared == s.ops[i].shared;
    assert forall i :: 0 <= i < |s.ops| ==> (t.ops[i].place.Queued? <==> s.ops[i].place.Queued?);
    LastToFinish(s, j);
    if s.drain.running - {j} == {} {
      assert PlacesOk(t) && NextInLine(t.ops, k) == NextInLine(s.ops, k);
      NextBatchStarts(t, k);
    }
  }

  /** Operations run only while the session is open, and that is only after storage has opened. */
  lemma RunsOnlyInAnOpenSession(run: seq<Step>, k: nat)
    requires k < |After(run).ops| && After(run).ops[k].place.Running?
    ensures SessionOpen(run)
  {
    RunIsSound(run);
    SessionsAsRecorded(run);
  }

  /** The lock is refused, or storage throws when it opens or closes. */
  predicate IsFailure(e: Step) {
    e == LockRefused || e == Opened(false) || e == Closed(false)
  }

  predicate Undisturbed(run: seq<Step>) {
    forall i :: 0 <= i < |run| ==> !IsFailure(run[i])
  }

  /** What has been started is what runs or has run. */
  predicate StartedOk(s: State) {
    forall k :: 0 <= k < |s.ops| ==> (k in s.started <==> s.ops[k].place.Running? || s.ops[k].place.Ran?)
  }

  lemma NextBatchRecords(s: State)
    requires StartedOk(s) && QueueOk(s) && Increasing(s.queue)
    ensures StartedOk(NextBatch(s))
  {
    var n := BatchSize(s.ops, s.queue);
    Started(s.ops, s.queue[..n]);
    forall k | 0 <= k < |s.ops| ensures k in s.started + s.queue[..n] <==> k in s.started || k in s.queue[..n] {
    }
  }

  lemma FinishRecords(s: State, k: nat)
    requires Sound(s) && StartedOk(s) && Enabled(s, Finish(k))
    ensures StartedOk(FinishStep(s, k))
  {
    var t := s.(ops := SettleOp(s.ops, k, Ran), drain := Batch(s.drain.running - {k}));
    assert s.ops[k].place.Running?;
    assert QueueOk(t) && StartedOk(t);
    NextBatchRecords(t);
  }

  lemma NextRecords(s: State, e: Step)
    requires Sound(s) && StartedOk(s) && Enabled(s, e)
    ensures StartedOk(Next(s, e))
  {
    match e
    case Opened(ok) => if ok { NextBatchRecords(s.(open := true)); }
    case Finish(k) => FinishRecords(s, k);
    case LockRefused => RejectedAll(s.ops, s.queue);
    case Released => RejectedAll(s.ops, s.queue);
    case _ =>
  }

  lemma {:induction false} RunRecords(run: seq<Step>)
    ensures StartedOk(After(run))
  {
    if run != [] {
      var front, last := run[..|run| - 1], run[|run| - 1];
      RunRecords(front);
      RunIsSound(front);
      if Enabled(After(front), last) { NextRecords(After(front), last); }
    }
  }

  lemma {:induction false} UndisturbedSessions(run: seq<Step>)
    requires Undisturbed(run)
    ensures !SessionFailed(run)
  {
    if run != [] {
      UndisturbedSessions(run[..|run| - 1]);
    }
  }

  /** Without a failure nothing is rejected. */
  lemma {:induction false} NothingIsRejected(run: seq<Step>, k: nat)
    requires Undisturbed(run) && k < |After(run).ops|
    ensures !After(run).ops[k].place.Rejected?
  {
    if run != [] {
      var front, last := run[..|run| - 1], run[|run| - 1];
      assert front + [last] == run;
      UndisturbedSessions(front);
      if k < |After(front).ops| { NothingIsRejected(front, k); }
      if Enabled(After(front), last) {
        OnlyArrivalsAdd(front, last);
        if k < |After(front).ops| { StepMovesExactly(front, last, k); }
      }
    }
  }

  /** While lock and storage work, every operation has been started exactly once, and has run, when the drain
      is over. */
  lemma EverythingRuns(run: seq<Step>, k: nat)
    requires Timely(run) && Undisturbed(run) && After(run).drain.NoDrain? && k < |After(run).ops|
    ensures After(run).ops[k].place.Ran? && multiset(After(run).started)[k] == 1
  {
    RunIsSound(run);
    RunRecords(run);
    TimelyIsServed(run);
    NothingIsRejected(run, k);
    OnceAtMost(After(run).started, k);
  }

  lemma {:induction false} OnceAtMost(xs: seq<nat>, k: nat)
    requires Increasing(xs)
    ensures multiset(xs)[k] == if k in xs then 1 else 0
  {
    if xs != [] {
      OnceAtMost(xs[..|xs| - 1], k);
      assert xs == xs[..|xs| - 1] + [xs[|xs| - 1]];
    }
  }

  // -------------------------------------------------------------------- termination

  function Station(d: Drain): nat {
    match d
    case NoDrain => 0
    case Leaving => 1
    case Opening => 1
    case Locking => 2
    case Unlocking(_) => 4
    case Closing => 5
    case Batch(running) => 6 + |running|
  }

  /** Work left; what waits when a session has failed will only be rejected. */
  function Left(s: State): nat {
    (if s.drain.Unlocking? && s.drain.failed then 0 else 10 * |s.queue|) + Station(s.drain)
  }

  /** A drain goes for the lock only when something waits. */
  predicate WorthIt(s: State) {
    s.drain.Locking? || s.drain.Opening? ==> s.queue != []
  }

  lemma {:induction false} SizeOfBatch(batch: seq<nat>)
    ensures |Members(batch)| <= |batch|
  {
    if batch != [] {
      var front, last := batch[..|batch| - 1], batch[|batch| - 1];
      SizeOfBatch(front);
      assert Members(batch) == Members(front) + {last};
      assert |Members(front) + {last}| <= |Members(front)| + 1;
    }
  }

  lemma NextBatchGetsCloser(s: State)
    ensures Left(NextBatch(s)) <= 10 * |s.queue| + (if s.queue == [] then 5 else -3)
    ensures WorthIt(NextBatch(s))
  {
    SizeOfBatch(s.queue[..BatchSize(s.ops, s.queue)]);
  }

  lemma NextGetsCloser(s: State, e: Step)
    requires Enabled(s, e) && WorthIt(s)
    ensures WorthIt(Next(s, e))
    ensures Left(Next(s, e)) <= Left(s) + if e.Arrive? then 12 else -1
  {
    match e
    case Opened(ok) => if ok { NextBatchGetsCloser(s.(open := true)); }
    case Finish(k) =>
      assert |s.drain.running - {k}| == |s.drain.running| - 1;
      NextBatchGetsCloser(s.(ops := SettleOp(s.ops, k, Ran), drain := Batch(s.drain.running - {k})));
    case _ =>
  }

  predicate IsRun(run: seq<Step>) {
    run == [] || (IsRun(run[..|run| - 1]) && Enabled(After(run[..|run| - 1]), run[|run| - 1]))
  }

  function Arrivals(run: seq<Step>): nat {
    if run == [] then 0 else Arrivals(run[..|run| - 1]) + if run[|run| - 1].Arrive? then 1 else 0
  }

  lemma {:induction false} StepsAreBounded(run: seq<Step>)
    requires IsRun(run)
    ensures WorthIt(After(run)) && |run| - Arrivals(run) + Left(After(run)) <= 12 * Arrivals(run)
  {
    if run != [] {
      StepsAreBounded(run[..|run| - 1]);
      NextGetsCloser(After(run[..|run| - 1]), run[|run| - 1]);
    }
  }

  /** Between them `n` arrivals cause at most twelve further steps each. */
  lemma DrainsTerminate(run: seq<Step>)
    requires IsRun(run)
    ensures |run| <= 13 * Arrivals(run)
  {
    StepsAreBounded(run);
  }

  /** Until the drain is over some step other than an arrival is possible. */
  lemma NeverStuck(run: seq<Step>)
    ensures After(run).drain.NoDrain? || exists e: Step :: !e.Arrive? && Enabled(After(run), e)
  {
    RunIsSound(run);
    var s := After(run);
    match s.drain
    case NoDrain =>
    case Locking => assert Enabled(s, LockGranted);
    case Opening => assert Enabled(s, Opened(true));
    case Batch(running) =>
      RunningIsNotEmpty(run);
      var k :| k in running;
      assert Enabled(s, Finish(k));
    case Closing => assert Enabled(s, Closed(true));
    case Unlocking(_) => assert Enabled(s, Released);
    case Leaving => assert Enabled(s, Cleared);
  }

  lemma NextBatchIsNotEmpty(s: State)
    ensures NextBatch(s).drain.Batch? ==> NextBatch(s).drain.running != {}
  {
    var n := BatchSize(s.ops, s.queue);
    if n > 0 {
      assert s.queue[..n][0] in s.queue[..n];
      assert s.queue[0] in NextBatch(s).drain.running;
    }
  }

  lemma {:induction false} RunningIsNotEmpty(run: seq<Step>)
    requires After(run).drain.Batch?
    ensures After(run).drain.running != {}
  {
    if run != [] {
      var before, e := After(run[..|run| - 1]), run[|run| - 1];
      if before.drain.Batch? { RunningIsNotEmpty(run[..|run| - 1]); }
      if Enabled(before, e) {
        if e.Opened? {
          NextBatchIsNotEmpty(before.(open := true));
        } else if e.Finish? {
          NextBatchIsNotEmpty(before.(ops := SettleOp(before.ops, e.k, Ran),
                                      drain := Batch(before.drain.running - {e.k})));
        }
      }
    }
  }
}
