/**
 * `fetchMissing` (src/engine/sync.ts): up to eight workers share one byte budget. Every await is a
 * point where another worker may run; the whole fetch is any interleaving of the steps below.
 */
module Fetch {
  import opened Prelude
  import opened Sums

  const MAX_CHUNK: nat := 2 * 1024 * 1024
  const MAX_WORKERS: nat := 8

  /** What is thrown: the aggregate cap, or some other error. */
  datatype Failure = CapExceeded | OtherError

  /** Where a worker is. Index `i` is the chunk it took; `r` its reservation; `u` what it used. */
  datatype Worker =
    | Ready                                   // at the top of its loop
    | Waiting(i: nat)                         // on the budget
    | Woken(i: nat)                           // resolved, about to test the budget again
    | Refused(i: nat)                         // reserve() returned 0
    | Fetching(i: nat, r: nat)
    | Storing(i: nat, r: nat, u: nat)
    | Finished

  /** What became of a chunk. */
  datatype Fate = Open | Stored(u: nat) | Dropped(u: nat)

  datatype State = State(
    next: nat, total: nat, remaining: int, inFlight: int, failure: Option<Failure>,
    workers: seq<Worker>, fates: seq<Fate>, puts: seq<nat>)

  function Start(chunks: nat, cap: nat): State {
    State(0, 0, cap, 0, None,
          seq(Min(MAX_WORKERS, chunks), _ => Ready), seq(chunks, _ => Open), [])
  }

  datatype Step =
    | Take(w: nat)
    | Resume(w: nat)
    | Refuse(w: nat)
    | FetchOk(w: nat, bytes: nat)
    | FetchFails(w: nat, error: Failure)
    | StoreOk(w: nat)
    | StoreFails(w: nat, error: Failure)

  // -------------------------------------------------------------------- the code

  function Put(s: State, w: nat, x: Worker): State
    requires w < |s.workers|
  {
    s.(workers := s.workers[w := x])
  }

  /** One pass of `reserve()` for chunk `i`. */
  function Reserve(s: State, w: nat, i: nat): State
    requires w < |s.workers|
  {
    if s.remaining == 0 && s.inFlight > 0 && s.failure.None? then Put(s, w, Waiting(i))
    else if s.remaining == 0 then Put(s, w, Refused(i))
    else
      var r := Min(MAX_CHUNK, s.remaining);
      Put(s, w, Fetching(i, if r < 0 then 0 else r)).(remaining := s.remaining - r, inFlight := s.inFlight + 1)
  }

  function Wake(x: Worker): Worker {
    if x.Waiting? then Woken(x.i) else x
  }

  function WakeAll(workers: seq<Worker>): (r: seq<Worker>)
    ensures |r| == |workers| && forall k :: 0 <= k < |r| ==> r[k] == Wake(workers[k])
  {
    seq(|workers|, k requires 0 <= k < |workers| => Wake(workers[k]))
  }

  /** `release`: return what was not used and wake every waiter. */
  function Release(s: State, r: nat, u: nat): State {
    s.(remaining := s.remaining + r - u, inFlight := s.inFlight - 1, workers := WakeAll(s.workers))
  }

  function Fail(f: Option<Failure>, e: Failure): Option<Failure> {
    if f.None? then Some(e) else f
  }

  predicate Enabled(s: State, e: Step) {
    && e.w < |s.workers|
    && match e
       case Take(w) => s.workers[w].Ready?
       case Resume(w) => s.workers[w].Woken?
       case Refuse(w) => s.workers[w].Refused?
       case FetchOk(w, bytes) => s.workers[w].Fetching? && bytes <= s.workers[w].r
       case FetchFails(w, _) => s.workers[w].Fetching?
       case StoreOk(w) => s.workers[w].Storing?
       case StoreFails(w, _) => s.workers[w].Storing?
  }

  function SetFate(s: State, i: nat, fate: Fate): State {
    if i < |s.fates| then s.(fates := s.fates[i := fate]) else s
  }

  function TakeStep(s: State, w: nat): State
    requires w < |s.workers|
  {
    if s.failure.Some? then Put(s, w, Finished)
    else if s.next >= |s.fates| then Put(s, w, Finished).(next := s.next + 1)
    else Reserve(s.(next := s.next + 1), w, s.next)
  }

  /** The chunk is over: its fate, the worker's next place, and the budget handed back. */
  function EndStep(s: State, w: nat, fate: Fate, x: Worker, failure: Option<Failure>): State
    requires w < |s.workers| && Flying(s.workers[w]) == 1
  {
    Release(Put(SetFate(s, s.workers[w].i, fate), w, x).(failure := failure), s.workers[w].r, Spent(fate))
  }

  function RefuseStep(s: State, w: nat): State
    requires w < |s.workers| && s.workers[w].Refused?
  {
    Put(SetFate(s, s.workers[w].i, Dropped(0)), w, Finished).(failure := Some(CapExceeded))
  }

  /** The bytes arrived while nothing had failed: count them and call the store. */
  function StoreCall(s: State, w: nat, bytes: nat): State
    requires w < |s.workers| && s.workers[w].Fetching?
  {
    var x := s.workers[w];
    Put(s, w, Storing(x.i, x.r, bytes)).(total := s.total + bytes, puts := s.puts + [x.i])
  }

  function Next(s: State, e: Step): State
    requires Enabled(s, e)
  {
    match e
    case Take(w) => TakeStep(s, w)
    case Resume(w) => Reserve(s, w, s.workers[w].i)
    case Refuse(w) => RefuseStep(s, w)
    case FetchOk(w, bytes) =>
      if s.failure.Some? then EndStep(s, w, Dropped(0), Finished, s.failure) else StoreCall(s, w, bytes)
    case FetchFails(w, error) => EndStep(s, w, Dropped(0), Finished, Fail(s.failure, error))
    case StoreOk(w) => EndStep(s, w, Stored(s.workers[w].u), Ready, s.failure)
    case StoreFails(w, error) => EndStep(s, w, Dropped(s.workers[w].u), Finished, Fail(s.failure, error))
  }

  /** A run: each step enabled where it is taken. */
  ghost predicate IsRun(s: State, run: seq<Step>) {
    run == [] || (IsRun(s, run[..|run| - 1]) && Enabled(After(s, run[..|run| - 1]), run[|run| - 1]))
  }

  ghost function After(s: State, run: seq<Step>): State {
    if run == [] then s
    else
      var before := After(s, run[..|run| - 1]);
      if Enabled(before, run[|run| - 1]) then Next(before, run[|run| - 1]) else before
  }

  // ------------------------------------------------------------ what is summed

  function Reserved(x: Worker): nat {
    if x.Fetching? || x.Storing? then x.r else 0
  }

  function Flying(x: Worker): nat {
    if x.Fetching? || x.Storing? then 1 else 0
  }

  function Unreleased(x: Worker): nat {
    if x.Storing? then x.u else 0
  }

  function Spent(x: Fate): nat {
    if x.Open? then 0 else x.u
  }

  const RESERVED: Worker -> int := (x: Worker) => Reserved(x) as int
  const FLYING: Worker -> int := (x: Worker) => Flying(x) as int
  const UNRELEASED: Worker -> int := (x: Worker) => Unreleased(x) as int
  const SPENT: Fate -> int := (x: Fate) => Spent(x) as int

  // ------------------------------------------------------------------- invariant

  predicate Holds(x: Worker) {
    !x.Ready? && !x.Finished?
  }

  /** Conservation: what is free, what is reserved and what was consumed make up the cap. */
  predicate Conserved(s: State, cap: nat) {
    && s.remaining >= 0
    && s.remaining + Sum(RESERVED, s.workers) + Sum(SPENT, s.fates) == cap
    && s.total == Sum(SPENT, s.fates) + Sum(UNRELEASED, s.workers)
    && s.inFlight == Sum(FLYING, s.workers)
  }

  predicate WorkerOk(s: State, x: Worker) {
    && (Holds(x) ==> x.i < |s.fates| && x.i < s.next && s.fates[x.i].Open?)
    && (x.Fetching? ==> 0 < x.r <= MAX_CHUNK)
    && (x.Storing? ==> 0 < x.r <= MAX_CHUNK && x.u <= x.r && x.i in s.puts)
    && (Holds(x) && !x.Storing? ==> x.i !in s.puts)
    && (x.Waiting? ==> s.inFlight > 0)
    && (x.Finished? && s.failure.None? ==> s.next >= |s.fates|)
  }

  predicate WorkersOk(s: State) {
    forall w :: 0 <= w < |s.workers| ==> WorkerOk(s, s.workers[w])
  }

  /** No two workers hold the same chunk. */
  predicate Exclusive(s: State) {
    forall v, w ::
      0 <= v < |s.workers| && 0 <= w < |s.workers| && v != w && Holds(s.workers[v]) && Holds(s.workers[w]) ==>
        s.workers[v].i != s.workers[w].i
  }

  predicate HeldBy(s: State, i: nat) {
    exists w :: 0 <= w < |s.workers| && Holds(s.workers[w]) && s.workers[w].i == i
  }

  /** While nothing failed, a chunk that was taken and is still open is in some worker's hands. */
  predicate Covered(s: State) {
    s.failure.None? ==> forall i :: 0 <= i < |s.fates| && i < s.next && s.fates[i].Open? ==> HeldBy(s, i)
  }

  predicate FatesOk(s: State) {
    && (forall i :: 0 <= i < |s.fates| && i >= s.next ==> s.fates[i].Open? && i !in s.puts)
    && (forall i :: 0 <= i < |s.fates| && s.fates[i].Dropped? ==> s.failure.Some?)
    && (forall i :: 0 <= i < |s.fates| && s.fates[i].Stored? ==> i in s.puts)
  }

  predicate PutsOk(s: State) {
    && (forall j, k :: 0 <= j < k < |s.puts| ==> s.puts[j] != s.puts[k])
    && (forall k :: 0 <= k < |s.puts| ==> s.puts[k] < |s.fates|)
  }

  predicate Sound(s: State, cap: nat) {
    Conserved(s, cap) && WorkersOk(s) && Exclusive(s) && Covered(s) && FatesOk(s) && PutsOk(s)
  }

  // ---------------------------------------------------------------- conservation

  lemma PutSums(workers: seq<Worker>, w: nat, x: Worker)
    requires w < |workers|
    ensures Sum(RESERVED, workers[w := x]) == Sum(RESERVED, workers) - Reserved(workers[w]) + Reserved(x)
    ensures Sum(FLYING, workers[w := x]) == Sum(FLYING, workers) - Flying(workers[w]) + Flying(x)
    ensures Sum(UNRELEASED, workers[w := x]) == Sum(UNRELEASED, workers) - Unreleased(workers[w]) + Unreleased(x)
  {
    SumUpdate(RESERVED, workers, w, x);
    SumUpdate(FLYING, workers, w, x);
    SumUpdate(UNRELEASED, workers, w, x);
  }

  lemma WakeSums(workers: seq<Worker>)
    ensures Sum(RESERVED, WakeAll(workers)) == Sum(RESERVED, workers)
    ensures Sum(FLYING, WakeAll(workers)) == Sum(FLYING, workers)
    ensures Sum(UNRELEASED, WakeAll(workers)) == Sum(UNRELEASED, workers)
  {
    SumSame(RESERVED, WakeAll(workers), workers);
    SumSame(FLYING, WakeAll(workers), workers);
    SumSame(UNRELEASED, WakeAll(workers), workers);
  }

  lemma SpentAfter(s: State, i: nat, fate: Fate)
    requires i < |s.fates| && s.fates[i].Open?
    ensures Sum(SPENT, SetFate(s, i, fate).fates) == Sum(SPENT, s.fates) + Spent(fate)
  {
    SumUpdate(SPENT, s.fates, i, fate);
  }

  lemma ReserveConserves(s: State, w: nat, i: nat, cap: nat)
    requires w < |s.workers| && Conserved(s, cap) && Flying(s.workers[w]) == 0
    ensures Conserved(Reserve(s, w, i), cap)
  {
    PutSums(s.workers, w, Reserve(s, w, i).workers[w]);
  }

  lemma TakeConserves(s: State, w: nat, cap: nat)
    requires w < |s.workers| && Conserved(s, cap) && s.workers[w].Ready?
    ensures Conserved(TakeStep(s, w), cap)
  {
    if s.failure.Some? || s.next >= |s.fates| {
      PutSums(s.workers, w, Finished);
    } else {
      ReserveConserves(s.(next := s.next + 1), w, s.next, cap);
    }
  }

  lemma RefuseConserves(s: State, w: nat, cap: nat)
    requires w < |s.workers| && Conserved(s, cap) && s.workers[w].Refused? && WorkerOk(s, s.workers[w])
    ensures Conserved(RefuseStep(s, w), cap)
  {
    PutSums(s.workers, w, Finished);
    SpentAfter(s, s.workers[w].i, Dropped(0));
  }

  /** A worker that ends its chunk gives back its reservation less what it used. */
  lemma EndConserves(s: State, w: nat, fate: Fate, x: Worker, failure: Option<Failure>, cap: nat)
    requires w < |s.workers| && Conserved(s, cap) && Flying(s.workers[w]) == 1 && WorkerOk(s, s.workers[w])
    requires Flying(x) == 0 && Spent(fate) == Unreleased(s.workers[w])
    ensures Conserved(EndStep(s, w, fate, x, failure), cap)
  {
    var t := EndStep(s, w, fate, x, failure);
    assert Sum(SPENT, t.fates) == Sum(SPENT, s.fates) + Spent(fate) by { SpentAfter(s, s.workers[w].i, fate); }
    PutSums(s.workers, w, x);
    WakeSums(s.workers[w := x]);
    assert t.workers == WakeAll(s.workers[w := x]);
  }

  lemma StoreCallConserves(s: State, w: nat, bytes: nat, cap: nat)
    requires w < |s.workers| && Conserved(s, cap) && s.workers[w].Fetching?
    ensures Conserved(StoreCall(s, w, bytes), cap)
  {
    PutSums(s.workers, w, Storing(s.workers[w].i, s.workers[w].r, bytes));
  }

  // ------------------------------------------------------- what one move leaves alone

  /** Only worker `w` and its chunk `i` change; the other workers are at most woken. */
  predicate Moves(s: State, t: State, w: nat, i: nat) {
    && w < |s.workers| && i < |s.fates|
    && |t.workers| == |s.workers| && |t.fates| == |s.fates| && s.next <= t.next
    && (forall v :: 0 <= v < |s.workers| && v != w ==>
          t.workers[v] == s.workers[v] || t.workers[v] == Wake(s.workers[v]))
    && (forall v :: 0 <= v < |s.workers| && v != w && t.workers[v].Waiting? ==> t.inFlight > 0)
    && (forall v :: 0 <= v < |s.workers| && v != w && Holds(s.workers[v]) ==> s.workers[v].i != i)
    && (forall j :: 0 <= j < |s.fates| && j != i ==> t.fates[j] == s.fates[j])
    && (t.puts == s.puts || t.puts == s.puts + [i])
    && (s.failure.Some? ==> t.failure.Some?)
    && (Holds(t.workers[w]) ==> t.workers[w].i == i)
  }

  lemma OtherWorkerOk(s: State, t: State, w: nat, i: nat, v: nat)
    requires Moves(s, t, w, i) && v < |s.workers| && v != w && WorkerOk(s, s.workers[v])
    ensures WorkerOk(t, t.workers[v])
  {
  }

  lemma MoveKeepsWorkers(s: State, t: State, w: nat, i: nat)
    requires Moves(s, t, w, i) && WorkersOk(s) && WorkerOk(t, t.workers[w])
    ensures WorkersOk(t)
  {
    forall v | 0 <= v < |t.workers| ensures WorkerOk(t, t.workers[v]) {
      if v != w { OtherWorkerOk(s, t, w, i, v); }
    }
  }

  lemma MoveKeepsExclusive(s: State, t: State, w: nat, i: nat)
    requires Moves(s, t, w, i) && Exclusive(s)
    ensures Exclusive(t)
  {
    forall u, v | 0 <= u < |t.workers| && 0 <= v < |t.workers| && u != v && Holds(t.workers[u]) && Holds(t.workers[v])
      ensures t.workers[u].i != t.workers[v].i
    {
      assert u != w ==> Holds(s.workers[u]) && s.workers[u].i == t.workers[u].i;
      assert v != w ==> Holds(s.workers[v]) && s.workers[v].i == t.workers[v].i;
    }
  }

  lemma MoveKeepsCovered(s: State, t: State, w: nat, i: nat)
    requires Moves(s, t, w, i) && Covered(s)
    requires s.next == t.next || (t.next == s.next + 1 && (i == s.next || s.next >= |s.fates|))
    requires t.failure.None? && t.fates[i].Open? && i < t.next ==> Holds(t.workers[w])
    requires Holds(s.workers[w]) ==> s.workers[w].i == i
    ensures Covered(t)
  {
    if t.failure.None? {
      forall j | 0 <= j < |t.fates| && j < t.next && t.fates[j].Open? ensures HeldBy(t, j) {
        if j == i {
          assert Holds(t.workers[w]) && t.workers[w].i == j;
        } else {
          assert HeldBy(s, j);
          var v :| 0 <= v < |s.workers| && Holds(s.workers[v]) && s.workers[v].i == j;
          assert v != w && Holds(t.workers[v]) && t.workers[v].i == j;
        }
      }
    }
  }

  lemma MoveKeepsFates(s: State, t: State, w: nat, i: nat)
    requires Moves(s, t, w, i) && FatesOk(s)
    requires i >= t.next ==> t.fates[i].Open? && t.puts == s.puts
    requires t.fates[i].Dropped? ==> t.failure.Some?
    requires t.fates[i].Stored? ==> i in t.puts
    ensures FatesOk(t)
  {
  }

  lemma MoveKeepsPuts(s: State, t: State, w: nat, i: nat)
    requires Moves(s, t, w, i) && PutsOk(s) && (t.puts == s.puts || i !in s.puts)
    ensures PutsOk(t)
  {
  }

  // --------------------------------------------------------- every step is sound

  lemma ReserveMoves(s: State, w: nat, i: nat, u: State)
    requires w < |s.workers| && i < |s.fates| && WorkersOk(s)
    requires forall v :: 0 <= v < |s.workers| && v != w && Holds(s.workers[v]) ==> s.workers[v].i != i
    requires u == s || u == s.(next := s.next + 1)
    ensures Moves(s, Reserve(u, w, i), w, i)
  {
    forall v | 0 <= v < |s.workers| && v != w && s.workers[v].Waiting? ensures Reserve(u, w, i).inFlight > 0 {
      assert WorkerOk(s, s.workers[v]);
    }
  }

  lemma ReservedWorkerOk(s: State, w: nat, i: nat)
    requires w < |s.workers| && i < |s.fates| && i < s.next && s.fates[i].Open? && i !in s.puts && s.remaining >= 0
    ensures var t := Reserve(s, w, i);
            WorkerOk(t, t.workers[w]) && Holds(t.workers[w]) && t.workers[w].i == i
            && t.fates == s.fates && t.puts == s.puts && t.next == s.next && t.failure == s.failure
  {
  }

  lemma ReserveIsSound(s: State, w: nat, i: nat, u: State, cap: nat)
    requires Sound(s, cap) && w < |s.workers| && Flying(s.workers[w]) == 0 && i < |s.fates|
    requires forall v :: 0 <= v < |s.workers| && v != w && Holds(s.workers[v]) ==> s.workers[v].i != i
    requires Holds(s.workers[w]) ==> s.workers[w].i == i
    requires (u == s && i < s.next) || (u == s.(next := s.next + 1) && i == s.next)
    requires s.fates[i].Open? && i !in s.puts
    ensures Sound(Reserve(u, w, i), cap)
  {
    var t := Reserve(u, w, i);
    ReserveConserves(u, w, i, cap);
    ReserveMoves(s, w, i, u);
    ReservedWorkerOk(u, w, i);
    MoveKeepsWorkers(s, t, w, i);
    MoveKeepsExclusive(s, t, w, i);
    MoveKeepsCovered(s, t, w, i);
    MoveKeepsFates(s, t, w, i);
    MoveKeepsPuts(s, t, w, i);
  }

  lemma NobodyHoldsTheNext(s: State)
    requires WorkersOk(s)
    ensures forall v :: 0 <= v < |s.workers| && Holds(s.workers[v]) ==> s.workers[v].i < s.next
  {
    forall v | 0 <= v < |s.workers| && Holds(s.workers[v]) ensures s.workers[v].i < s.next {
      assert WorkerOk(s, s.workers[v]);
    }
  }

  /** A worker that leaves its loop. */
  lemma StopIsSound(s: State, t: State, w: nat, cap: nat)
    requires Sound(s, cap) && w < |s.workers| && s.workers[w].Ready?
    requires t == Put(s, w, Finished) || t == Put(s, w, Finished).(next := s.next + 1)
    requires Conserved(t, cap)
    requires if s.failure.None? then s.next >= |s.fates| else t.next == s.next
    ensures Sound(t, cap)
  {
    forall v | 0 <= v < |t.workers| ensures WorkerOk(t, t.workers[v]) {
      assert WorkerOk(s, s.workers[v]);
    }
    assert Exclusive(t);
    if t.failure.None? {
      forall j | 0 <= j < |t.fates| && j < t.next && t.fates[j].Open? ensures HeldBy(t, j) {
        assert HeldBy(s, j);
        var v :| 0 <= v < |s.workers| && Holds(s.workers[v]) && s.workers[v].i == j;
        assert v != w && t.workers[v] == s.workers[v];
      }
    }
  }

  lemma TakeIsSound(s: State, w: nat, cap: nat)
    requires Sound(s, cap) && w < |s.workers| && s.workers[w].Ready?
    ensures Sound(TakeStep(s, w), cap)
  {
    if s.failure.Some? || s.next >= |s.fates| {
      StopTakeIsSound(s, w, cap);
    } else {
      TakeNextIsSound(s, w, cap);
      assert TakeStep(s, w) == Reserve(s.(next := s.next + 1), w, s.next);
    }
  }

  lemma StopTakeIsSound(s: State, w: nat, cap: nat)
    requires Sound(s, cap) && w < |s.workers| && s.workers[w].Ready? && (s.failure.Some? || s.next >= |s.fates|)
    ensures Sound(TakeStep(s, w), cap)
  {
    TakeConserves(s, w, cap);
    StopIsSound(s, TakeStep(s, w), w, cap);
  }

  lemma TakeNextIsSound(s: State, w: nat, cap: nat)
    requires Sound(s, cap) && w < |s.workers| && s.workers[w].Ready? && s.next < |s.fates|
    ensures Sound(Reserve(s.(next := s.next + 1), w, s.next), cap)
  {
    assert s.fates[s.next].Open? && s.next !in s.puts;
    NobodyHoldsTheNext(s);
    ReserveIsSound(s, w, s.next, s.(next := s.next + 1), cap);
  }

  lemma ResumeIsSound(s: State, w: nat, cap: nat)
    requires Sound(s, cap) && w < |s.workers| && s.workers[w].Woken?
    ensures Sound(Reserve(s, w, s.workers[w].i), cap)
  {
    assert WorkerOk(s, s.workers[w]);
    ReserveIsSound(s, w, s.workers[w].i, s, cap);
  }

  lemma RefuseMoves(s: State, w: nat)
    requires w < |s.workers| && s.workers[w].Refused? && WorkersOk(s) && Exclusive(s) && WorkerOk(s, s.workers[w])
    ensures Moves(s, RefuseStep(s, w), w, s.workers[w].i)
  {
    forall v | 0 <= v < |s.workers| && v != w && s.workers[v].Waiting? ensures s.inFlight > 0 {
      assert WorkerOk(s, s.workers[v]);
    }
  }

  lemma RefuseIsSound(s: State, w: nat, cap: nat)
    requires Sound(s, cap) && w < |s.workers| && s.workers[w].Refused?
    ensures Sound(RefuseStep(s, w), cap)
  {
    var t, i := RefuseStep(s, w), s.workers[w].i;
    assert WorkerOk(s, s.workers[w]);
    RefuseConserves(s, w, cap);
    RefuseMoves(s, w);
    MoveKeepsWorkers(s, t, w, i);
    MoveKeepsExclusive(s, t, w, i);
    MoveKeepsCovered(s, t, w, i);
    MoveKeepsFates(s, t, w, i);
    MoveKeepsPuts(s, t, w, i);
  }

  lemma EndMoves(s: State, w: nat, fate: Fate, x: Worker, failure: Option<Failure>)
    requires w < |s.workers| && Flying(s.workers[w]) == 1 && WorkerOk(s, s.workers[w]) && Exclusive(s)
    requires !Holds(x) && (s.failure.Some? ==> failure.Some?)
    ensures Moves(s, EndStep(s, w, fate, x, failure), w, s.workers[w].i)
  {
    var t := EndStep(s, w, fate, x, failure);
    forall v | 0 <= v < |s.workers| ensures !t.workers[v].Waiting? {
      assert t.workers[v] == Wake(s.workers[w := x][v]);
    }
  }

  lemma EndIsSound(s: State, w: nat, fate: Fate, x: Worker, failure: Option<Failure>, cap: nat)
    requires Sound(s, cap) && w < |s.workers| && Flying(s.workers[w]) == 1
    requires x.Ready? || (x.Finished? && failure.Some?)
    requires Spent(fate) == Unreleased(s.workers[w]) && (s.failure.Some? ==> failure.Some?)
    requires !fate.Open? && (fate.Dropped? ==> failure.Some?) && (fate.Stored? ==> s.workers[w].Storing?)
    ensures Sound(EndStep(s, w, fate, x, failure), cap)
  {
    var t, i := EndStep(s, w, fate, x, failure), s.workers[w].i;
    assert WorkerOk(s, s.workers[w]);
    EndConserves(s, w, fate, x, failure, cap);
    EndMoves(s, w, fate, x, failure);
    assert t.workers[w] == x && t.fates[i] == fate;
    MoveKeepsWorkers(s, t, w, i);
    MoveKeepsExclusive(s, t, w, i);
    MoveKeepsCovered(s, t, w, i);
    MoveKeepsFates(s, t, w, i);
    MoveKeepsPuts(s, t, w, i);
  }

  lemma StoreCallMoves(s: State, w: nat, bytes: nat)
    requires w < |s.workers| && s.workers[w].Fetching? && WorkersOk(s) && Exclusive(s) && WorkerOk(s, s.workers[w])
    ensures Moves(s, StoreCall(s, w, bytes), w, s.workers[w].i)
  {
    forall v | 0 <= v < |s.workers| && v != w && s.workers[v].Waiting? ensures s.inFlight > 0 {
      assert WorkerOk(s, s.workers[v]);
    }
  }

  lemma StoreCallIsSound(s: State, w: nat, bytes: nat, cap: nat)
    requires Sound(s, cap) && w < |s.workers| && s.workers[w].Fetching? && bytes <= s.workers[w].r
    ensures Sound(StoreCall(s, w, bytes), cap)
  {
    var t, i := StoreCall(s, w, bytes), s.workers[w].i;
    assert WorkerOk(s, s.workers[w]);
    StoreCallConserves(s, w, bytes, cap);
    StoreCallMoves(s, w, bytes);
    assert t.puts[|s.puts|] == i;
    MoveKeepsWorkers(s, t, w, i);
    MoveKeepsExclusive(s, t, w, i);
    MoveKeepsCovered(s, t, w, i);
    MoveKeepsFates(s, t, w, i);
    MoveKeepsPuts(s, t, w, i);
  }

  /** Every step of every worker keeps the invariant. */
  lemma NextIsSound(s: State, e: Step, cap: nat)
    requires Sound(s, cap) && Enabled(s, e)
    ensures Sound(Next(s, e), cap)
  {
    match e
    case Take(w) => TakeIsSound(s, w, cap);
    case Resume(w) => ResumeIsSound(s, w, cap);
    case Refuse(w) => RefuseIsSound(s, w, cap);
    case FetchOk(w, bytes) =>
      if s.failure.Some? { EndIsSound(s, w, Dropped(0), Finished, s.failure, cap); }
      else { StoreCallIsSound(s, w, bytes, cap); }
    case FetchFails(w, error) => EndIsSound(s, w, Dropped(0), Finished, Fail(s.failure, error), cap);
    case StoreOk(w) => EndIsSound(s, w, Stored(s.workers[w].u), Ready, s.failure, cap);
    case StoreFails(w, error) => EndIsSound(s, w, Dropped(s.workers[w].u), Finished, Fail(s.failure, error), cap);
  }

  /** The number of chunks and of workers never changes. */
  lemma NextKeepsLengths(s: State, e: Step)
    requires Enabled(s, e)
    ensures |Next(s, e).fates| == |s.fates| && |Next(s, e).workers| == |s.workers|
  {
  }

  lemma StartIsSound(chunks: nat, cap: nat)
    ensures Sound(Start(chunks, cap), cap)
  {
    var s := Start(chunks, cap);
    SumZero(RESERVED, s.workers);
    SumZero(FLYING, s.workers);
    SumZero(UNRELEASED, s.workers);
    SumZero(SPENT, s.fates);
  }

  /** The invariant holds after any interleaving of any length. */
  lemma {:induction false} RunIsSound(chunks: nat, cap: nat, run: seq<Step>)
    requires IsRun(Start(chunks, cap), run)
    ensures Sound(After(Start(chunks, cap), run), cap)
    ensures |After(Start(chunks, cap), run).fates| == chunks
    ensures |After(Start(chunks, cap), run).workers| == Min(MAX_WORKERS, chunks)
  {
    if run == [] {
      StartIsSound(chunks, cap);
    } else {
      var before := After(Start(chunks, cap), run[..|run| - 1]);
      RunIsSound(chunks, cap, run[..|run| - 1]);
      NextIsSound(before, run[|run| - 1], cap);
      NextKeepsLengths(before, run[|run| - 1]);
    }
  }

  /**
   * At every await of every interleaving, free budget, reservations in flight and consumption
   * released so far make up the cap, and no reservation exceeds the chunk maximum.
   */
  lemma BudgetIsConserved(chunks: nat, cap: nat, run: seq<Step>)
    requires IsRun(Start(chunks, cap), run)
    ensures var s := After(Start(chunks, cap), run);
            0 <= s.remaining && s.remaining + Sum(RESERVED, s.workers) + Sum(SPENT, s.fates) == cap
            && s.inFlight == Sum(FLYING, s.workers)
            && forall w :: 0 <= w < |s.workers| ==> Reserved(s.workers[w]) <= MAX_CHUNK
  {
    RunIsSound(chunks, cap, run);
    var s := After(Start(chunks, cap), run);
    forall w | 0 <= w < |s.workers| ensures Reserved(s.workers[w]) <= MAX_CHUNK {
      assert WorkerOk(s, s.workers[w]);
    }
  }

  // ----------------------------------------------------------------- no deadlock

  lemma {:induction false} FindFlying(workers: seq<Worker>) returns (w: nat)
    requires Sum(FLYING, workers) > 0
    ensures w < |workers| && Flying(workers[w]) == 1
  {
    var n := |workers| - 1;
    if Flying(workers[n]) == 1 {
      w := n;
    } else {
      w := FindFlying(workers[..n]);
    }
  }

  /** A worker that waits on the budget always has one in flight whose release wakes it. */
  lemma WaitersHaveAWaker(chunks: nat, cap: nat, run: seq<Step>, w: nat)
    requires IsRun(Start(chunks, cap), run)
    requires w < |After(Start(chunks, cap), run).workers| && After(Start(chunks, cap), run).workers[w].Waiting?
    ensures exists v :: 0 <= v < |After(Start(chunks, cap), run).workers|
                        && Flying(After(Start(chunks, cap), run).workers[v]) == 1
  {
    RunIsSound(chunks, cap, run);
    var s := After(Start(chunks, cap), run);
    assert WorkerOk(s, s.workers[w]);
    var v := FindFlying(s.workers);
  }

  predicate Done(s: State) {
    forall w :: 0 <= w < |s.workers| ==> s.workers[w].Finished?
  }

  /** Until every worker is done, some worker can move. */
  lemma NeverStuck(chunks: nat, cap: nat, run: seq<Step>)
    requires IsRun(Start(chunks, cap), run)
    ensures Done(After(Start(chunks, cap), run)) || exists e :: Enabled(After(Start(chunks, cap), run), e)
  {
    var s := After(Start(chunks, cap), run);
    if !Done(s) {
      var w :| 0 <= w < |s.workers| && !s.workers[w].Finished?;
      var v := w;
      if s.workers[w].Waiting? {
        WaitersHaveAWaker(chunks, cap, run, w);
        v :| 0 <= v < |s.workers| && Flying(s.workers[v]) == 1;
      }
      match s.workers[v]
      case Ready => assert Enabled(s, Take(v));
      case Woken(_) => assert Enabled(s, Resume(v));
      case Refused(_) => assert Enabled(s, Refuse(v));
      case Fetching(_, _) => assert Enabled(s, FetchOk(v, 0));
      case Storing(_, _, _) => assert Enabled(s, StoreOk(v));
    }
  }

  // ----------------------------------------------------------------- termination

  function Pending(x: Fate): nat {
    if x.Open? then 1 else 0
  }

  function Weight(x: Worker): nat {
    match x
    case Finished => 0
    case Ready => 1
    case Refused(_) => 1
    case Storing(_, _, _) => 1
    case Fetching(_, _) => 2
    case Waiting(_) => 3
    case Woken(_) => 4
  }

  const PENDING: Fate -> int := (x: Fate) => Pending(x) as int
  const WEIGHT: Worker -> int := (x: Worker) => Weight(x) as int

  /** What is left to do. */
  function Left(s: State): int {
    9 * Sum(PENDING, s.fates) + 3 * Max(0, |s.fates| - s.next) + Sum(WEIGHT, s.workers)
  }

  /** Waking adds at most one per waiter. */
  lemma {:induction false} WakeWeight(workers: seq<Worker>)
    ensures Sum(WEIGHT, WakeAll(workers)) <= Sum(WEIGHT, workers) + |workers|
  {
    if workers != [] {
      WakeWeight(workers[..|workers| - 1]);
      assert WakeAll(workers)[..|workers| - 1] == WakeAll(workers[..|workers| - 1]);
    }
  }

  lemma EndGetsCloser(s: State, w: nat, fate: Fate, x: Worker, failure: Option<Failure>)
    requires w < |s.workers| && Flying(s.workers[w]) == 1 && WorkerOk(s, s.workers[w]) && |s.workers| <= MAX_WORKERS
    requires !fate.Open? && Weight(x) <= 1
    ensures Left(EndStep(s, w, fate, x, failure)) < Left(s)
  {
    SumUpdate(PENDING, s.fates, s.workers[w].i, fate);
    SumUpdate(WEIGHT, s.workers, w, x);
    WakeWeight(s.workers[w := x]);
  }

  lemma MoveGetsCloser(s: State, t: State, w: nat, x: Worker)
    requires w < |s.workers| && t.workers == s.workers[w := x] && t.fates == s.fates
    requires 3 * (Max(0, |s.fates| - t.next) - Max(0, |s.fates| - s.next)) + Weight(x) < Weight(s.workers[w])
    ensures Left(t) < Left(s)
  {
    SumUpdate(WEIGHT, s.workers, w, x);
  }

  lemma TakeGetsCloser(s: State, w: nat)
    requires w < |s.workers| && s.workers[w].Ready?
    ensures Left(TakeStep(s, w)) < Left(s)
  {
    MoveGetsCloser(s, TakeStep(s, w), w, TakeStep(s, w).workers[w]);
  }

  lemma RefuseGetsCloser(s: State, w: nat)
    requires w < |s.workers| && s.workers[w].Refused? && WorkerOk(s, s.workers[w])
    ensures Left(RefuseStep(s, w)) < Left(s)
  {
    SumUpdate(PENDING, s.fates, s.workers[w].i, Dropped(0));
    SumUpdate(WEIGHT, s.workers, w, Finished);
  }

  lemma NextGetsCloser(s: State, e: Step, cap: nat)
    requires Sound(s, cap) && Enabled(s, e) && |s.workers| <= MAX_WORKERS
    ensures Left(Next(s, e)) < Left(s)
  {
    assert WorkerOk(s, s.workers[e.w]);
    match e
    case Take(w) => TakeGetsCloser(s, w);
    case Resume(w) => MoveGetsCloser(s, Next(s, e), w, Next(s, e).workers[w]);
    case Refuse(w) => RefuseGetsCloser(s, w);
    case FetchOk(w, bytes) =>
      if s.failure.Some? { EndGetsCloser(s, w, Dropped(0), Finished, s.failure); }
      else { MoveGetsCloser(s, Next(s, e), w, Storing(s.workers[w].i, s.workers[w].r, bytes)); }
    case FetchFails(w, error) => EndGetsCloser(s, w, Dropped(0), Finished, Fail(s.failure, error));
    case StoreOk(w) => EndGetsCloser(s, w, Stored(s.workers[w].u), Ready, s.failure);
    case StoreFails(w, error) => EndGetsCloser(s, w, Dropped(s.workers[w].u), Finished, Fail(s.failure, error));
  }

  lemma LeftAtTheStart(chunks: nat, cap: nat)
    ensures Left(Start(chunks, cap)) <= 12 * chunks + MAX_WORKERS
  {
    SumBound(PENDING, Start(chunks, cap).fates, 0, 1);
    SumBound(WEIGHT, Start(chunks, cap).workers, 0, 1);
  }

  lemma LeftIsNatural(s: State)
    ensures Left(s) >= 0
  {
    SumBoundBelow(PENDING, s.fates);
    SumBoundBelow(WEIGHT, s.workers);
  }

  lemma {:induction false} LeftDropsAlongARun(chunks: nat, cap: nat, run: seq<Step>)
    requires IsRun(Start(chunks, cap), run)
    ensures Left(After(Start(chunks, cap), run)) + |run| <= 12 * chunks + MAX_WORKERS
  {
    if run == [] {
      LeftAtTheStart(chunks, cap);
    } else {
      LeftDropsAlongARun(chunks, cap, run[..|run| - 1]);
      RunIsSound(chunks, cap, run[..|run| - 1]);
      NextGetsCloser(After(Start(chunks, cap), run[..|run| - 1]), run[|run| - 1], cap);
    }
  }

  /** However the workers interleave, waiting and waking included, the fetch ends within a bound. */
  lemma FetchTerminates(chunks: nat, cap: nat, run: seq<Step>)
    requires IsRun(Start(chunks, cap), run)
    ensures |run| <= 12 * chunks + MAX_WORKERS
  {
    LeftDropsAlongARun(chunks, cap, run);
    LeftIsNatural(After(Start(chunks, cap), run));
  }

  // ------------------------------------------------------------------ the outcome

  /** A failure was raised exactly when some chunk was given up. */
  predicate Blamed(s: State) {
    s.failure.Some? ==> exists i :: 0 <= i < |s.fates| && s.fates[i].Dropped?
  }

  lemma BlameStays(s: State, t: State, i: nat)
    requires Blamed(s) && i < |s.fates| && |t.fates| == |s.fates| && s.fates[i].Open?
    requires forall j :: 0 <= j < |s.fates| && j != i ==> t.fates[j] == s.fates[j]
    requires t.failure.Some? ==> t.fates[i].Dropped? || s.failure.Some?
    ensures Blamed(t)
  {
    if s.failure.Some? {
      var j :| 0 <= j < |s.fates| && s.fates[j].Dropped?;
      assert t.fates[j].Dropped?;
    }
  }

  lemma NextKeepsBlame(s: State, e: Step, cap: nat)
    requires Sound(s, cap) && Blamed(s) && Enabled(s, e)
    ensures Blamed(Next(s, e))
  {
    assert WorkerOk(s, s.workers[e.w]);
    if !e.Take? && !e.Resume? {
      BlameStays(s, Next(s, e), s.workers[e.w].i);
    }
  }

  lemma {:induction false} RunIsBlamed(chunks: nat, cap: nat, run: seq<Step>)
    requires IsRun(Start(chunks, cap), run)
    ensures Blamed(After(Start(chunks, cap), run))
  {
    if run != [] {
      RunIsBlamed(chunks, cap, run[..|run| - 1]);
      RunIsSound(chunks, cap, run[..|run| - 1]);
      NextKeepsBlame(After(Start(chunks, cap), run[..|run| - 1]), run[|run| - 1], cap);
    }
  }

  lemma IdleSums(s: State)
    requires Done(s)
    ensures Sum(RESERVED, s.workers) == 0 && Sum(UNRELEASED, s.workers) == 0 && Sum(FLYING, s.workers) == 0
  {
    SumZero(RESERVED, s.workers);
    SumZero(UNRELEASED, s.workers);
    SumZero(FLYING, s.workers);
  }

  /**
   * When all workers are done the budget is whole again less what the stored and dropped chunks used,
   * which is what `total` counts; it never exceeds the cap.
   */
  lemma BudgetIsReturned(chunks: nat, cap: nat, run: seq<Step>)
    requires IsRun(Start(chunks, cap), run) && Done(After(Start(chunks, cap), run))
    ensures var s := After(Start(chunks, cap), run);
            s.inFlight == 0 && s.total <= cap && s.remaining == cap - s.total && s.total == Sum(SPENT, s.fates)
  {
    RunIsSound(chunks, cap, run);
    IdleSums(After(Start(chunks, cap), run));
  }

  lemma DoneLeavesNoneOpen(s: State, cap: nat)
    requires Sound(s, cap) && Done(s) && s.failure.None? && |s.workers| == Min(MAX_WORKERS, |s.fates|)
    ensures forall i :: 0 <= i < |s.fates| ==> s.fates[i].Stored?
  {
    forall i | 0 <= i < |s.fates| ensures s.fates[i].Stored? {
      assert WorkerOk(s, s.workers[0]);
      assert !HeldBy(s, i);
    }
  }

  /**
   * The fetch returns normally exactly when no chunk was given up, and then every missing chunk was
   * handed to the store exactly once and none besides.
   */
  lemma ReturnsExactlyWhenAllStored(chunks: nat, cap: nat, run: seq<Step>)
    requires IsRun(Start(chunks, cap), run) && Done(After(Start(chunks, cap), run))
    ensures var s := After(Start(chunks, cap), run);
            |s.fates| == chunks
            && (s.failure.None? <==> forall i :: 0 <= i < |s.fates| ==> s.fates[i].Stored?)
            && (s.failure.None? ==> forall i: nat :: multiset(s.puts)[i] == if i < chunks then 1 else 0)
  {
    var s := After(Start(chunks, cap), run);
    RunIsSound(chunks, cap, run);
    RunIsBlamed(chunks, cap, run);
    if s.failure.None? {
      DoneLeavesNoneOpen(s, cap);
      forall i: nat ensures multiset(s.puts)[i] == if i < chunks then 1 else 0 {
        OccursOnce(s.puts, i);
        assert i < chunks ==> s.fates[i].Stored?;
      }
    }
  }

  lemma {:induction false} OccursOnce(xs: seq<nat>, x: nat)
    requires forall j, k :: 0 <= j < k < |xs| ==> xs[j] != xs[k]
    ensures multiset(xs)[x] == if x in xs then 1 else 0
  {
    if xs != [] {
      var n := |xs| - 1;
      OccursOnce(xs[..n], x);
      assert xs == xs[..n] + [xs[n]];
    }
  }

  // ------------------------------------------------- reservations that are not cut

  /** Every download delivers the chunk's own compressed size. */
  ghost predicate Truthful(s: State, sizes: seq<nat>, run: seq<Step>) {
    run == [] || (
      var before := After(s, run[..|run| - 1]);
      var e := run[|run| - 1];
      Truthful(s, sizes, run[..|run| - 1])
      && (e.FetchOk? && e.w < |before.workers| && Holds(before.workers[e.w]) && before.workers[e.w].i < |sizes| ==>
            e.bytes == sizes[before.workers[e.w].i]))
  }

  predicate FateIsTrue(x: Fate, size: nat) {
    Spent(x) <= size
  }

  predicate WorkerIsTrue(x: Worker, sizes: seq<nat>) {
    && !x.Waiting? && !x.Woken? && !x.Refused?
    && (x.Fetching? ==> x.r == MAX_CHUNK)
    && (x.Storing? ==> x.r == MAX_CHUNK && x.i < |sizes| && x.u == sizes[x.i])
  }

  predicate Unhurried(s: State, sizes: seq<nat>) {
    && |s.fates| == |sizes|
    && (forall i :: 0 <= i < |sizes| ==> FateIsTrue(s.fates[i], sizes[i]))
    && (forall w :: 0 <= w < |s.workers| ==> WorkerIsTrue(s.workers[w], sizes))
  }

  const SIZE: nat -> int := (n: nat) => n as int

  lemma {:induction false} SpentAtMostSizes(fates: seq<Fate>, sizes: seq<nat>)
    requires |fates| == |sizes| && forall i :: 0 <= i < |sizes| ==> FateIsTrue(fates[i], sizes[i])
    ensures Sum(SPENT, fates) <= Sum(SIZE, sizes)
  {
    if fates != [] {
      SpentAtMostSizes(fates[..|fates| - 1], sizes[..|sizes| - 1]);
    }
  }

  lemma EnoughIsLeft(s: State, w: nat, sizes: seq<nat>, cap: nat)
    requires Conserved(s, cap) && Unhurried(s, sizes) && w < |s.workers| <= MAX_WORKERS && s.workers[w].Ready?
    requires Sum(SIZE, sizes) + MAX_WORKERS * MAX_CHUNK <= cap
    ensures s.remaining >= MAX_CHUNK
  {
    SpentAtMostSizes(s.fates, sizes);
    SumUpdate(RESERVED, s.workers, w, Fetching(0, MAX_CHUNK));
    SumBound(RESERVED, s.workers[w := Fetching(0, MAX_CHUNK)], 0, MAX_CHUNK);
  }

  lemma TakeStaysUnhurried(s: State, w: nat, sizes: seq<nat>, cap: nat)
    requires Conserved(s, cap) && Unhurried(s, sizes) && w < |s.workers| <= MAX_WORKERS && s.workers[w].Ready?
    requires Sum(SIZE, sizes) + MAX_WORKERS * MAX_CHUNK <= cap
    ensures Unhurried(TakeStep(s, w), sizes)
  {
    EnoughIsLeft(s, w, sizes, cap);
  }

  lemma EndStaysUnhurried(s: State, w: nat, fate: Fate, x: Worker, failure: Option<Failure>, sizes: seq<nat>)
    requires Unhurried(s, sizes) && w < |s.workers| && Flying(s.workers[w]) == 1 && WorkerOk(s, s.workers[w])
    requires !Holds(x) && Spent(fate) == Unreleased(s.workers[w])
    ensures Unhurried(EndStep(s, w, fate, x, failure), sizes)
  {
    var y, t := s.workers[w], EndStep(s, w, fate, x, failure);
    assert WorkerIsTrue(y, sizes);
    forall v | 0 <= v < |t.workers| ensures WorkerIsTrue(t.workers[v], sizes) {
      assert t.workers[v] == Wake(s.workers[w := x][v]);
      assert WorkerIsTrue(s.workers[v], sizes);
    }
  }

  lemma StoreCallStaysUnhurried(s: State, w: nat, bytes: nat, sizes: seq<nat>)
    requires Unhurried(s, sizes) && w < |s.workers| && s.workers[w].Fetching? && WorkerOk(s, s.workers[w])
    requires bytes == sizes[s.workers[w].i]
    ensures Unhurried(StoreCall(s, w, bytes), sizes)
  {
    assert WorkerIsTrue(s.workers[w], sizes);
  }

  lemma NextStaysUnhurried(s: State, e: Step, sizes: seq<nat>, cap: nat)
    requires Sound(s, cap) && Unhurried(s, sizes) && Enabled(s, e) && |s.workers| <= MAX_WORKERS
    requires Sum(SIZE, sizes) + MAX_WORKERS * MAX_CHUNK <= cap
    requires e.FetchOk? && s.workers[e.w].i < |sizes| ==> e.bytes == sizes[s.workers[e.w].i]
    ensures Unhurried(Next(s, e), sizes)
  {
    assert WorkerOk(s, s.workers[e.w]) && WorkerIsTrue(s.workers[e.w], sizes);
    match e
    case Take(w) => TakeStaysUnhurried(s, w, sizes, cap);
    case Resume(w) =>
    case Refuse(w) =>
    case FetchOk(w, bytes) =>
      if s.failure.Some? { EndStaysUnhurried(s, w, Dropped(0), Finished, s.failure, sizes); }
      else { StoreCallStaysUnhurried(s, w, bytes, sizes); }
    case FetchFails(w, error) => EndStaysUnhurried(s, w, Dropped(0), Finished, Fail(s.failure, error), sizes);
    case StoreOk(w) => EndStaysUnhurried(s, w, Stored(s.workers[w].u), Ready, s.failure, sizes);
    case StoreFails(w, error) =>
      EndStaysUnhurried(s, w, Dropped(s.workers[w].u), Finished, Fail(s.failure, error), sizes);
  }

  /**
   * When the compressed sizes leave eight chunk maxima of the cap free, every reservation is a full
   * chunk maximum and no worker ever waits or is refused.
   */
  lemma {:induction false} NoReservationIsCut(sizes: seq<nat>, cap: nat, run: seq<Step>)
    requires IsRun(Start(|sizes|, cap), run) && Truthful(Start(|sizes|, cap), sizes, run)
    requires Sum(SIZE, sizes) + MAX_WORKERS * MAX_CHUNK <= cap
    ensures Unhurried(After(Start(|sizes|, cap), run), sizes)
  {
    if run != [] {
      var before := After(Start(|sizes|, cap), run[..|run| - 1]);
      NoReservationIsCut(sizes, cap, run[..|run| - 1]);
      RunIsSound(|sizes|, cap, run[..|run| - 1]);
      assert WorkerOk(before, before.workers[run[|run| - 1].w]);
      NextStaysUnhurried(before, run[|run| - 1], sizes, cap);
    }
  }

  // -------------------------------------------------------------------- what is thrown

  /** The error that decides: the first to arrive, unless a worker then finds the budget spent. */
  ghost function Cause(s: State, run: seq<Step>): Option<Failure> {
    if run == [] then None
    else
      var earlier := Cause(s, run[..|run| - 1]);
      match run[|run| - 1]
      case Refuse(_) => Some(CapExceeded)
      case FetchFails(_, error) => if earlier.None? then Some(error) else earlier
      case StoreFails(_, error) => if earlier.None? then Some(error) else earlier
      case _ => earlier
  }

  /** The fetch fails exactly if something failed, and with that error. */
  lemma {:induction false} FailsExactlyForACause(chunks: nat, cap: nat, run: seq<Step>)
    requires IsRun(Start(chunks, cap), run)
    ensures After(Start(chunks, cap), run).failure == Cause(Start(chunks, cap), run)
  {
    if run != [] {
      FailsExactlyForACause(chunks, cap, run[..|run| - 1]);
    }
  }

  predicate NoErrors(run: seq<Step>) {
    forall k :: 0 <= k < |run| ==> !run[k].FetchFails? && !run[k].StoreFails?
  }

  lemma {:induction false} NothingIsRefused(sizes: seq<nat>, cap: nat, run: seq<Step>)
    requires IsRun(Start(|sizes|, cap), run) && Truthful(Start(|sizes|, cap), sizes, run) && NoErrors(run)
    requires Sum(SIZE, sizes) + MAX_WORKERS * MAX_CHUNK <= cap
    ensures Cause(Start(|sizes|, cap), run).None?
  {
    if run != [] {
      var front, e := run[..|run| - 1], run[|run| - 1];
      NothingIsRefused(sizes, cap, front);
      NoReservationIsCut(sizes, cap, front);
      assert WorkerIsTrue(After(Start(|sizes|, cap), front).workers[e.w], sizes);
    }
  }

  /** When every transfer and every put succeeds and the sizes leave eight chunk maxima free, a fetch that is
      over has stored every chunk. */
  lemma LargeBudgetsSucceed(sizes: seq<nat>, cap: nat, run: seq<Step>)
    requires IsRun(Start(|sizes|, cap), run) && Truthful(Start(|sizes|, cap), sizes, run) && NoErrors(run)
    requires Sum(SIZE, sizes) + MAX_WORKERS * MAX_CHUNK <= cap && Done(After(Start(|sizes|, cap), run))
    ensures var s := After(Start(|sizes|, cap), run);
            s.failure.None? && |s.fates| == |sizes| && forall i :: 0 <= i < |sizes| ==> s.fates[i].Stored?
  {
    NothingIsRefused(sizes, cap, run);
    FailsExactlyForACause(|sizes|, cap, run);
    ReturnsExactlyWhenAllStored(|sizes|, cap, run);
  }
}
