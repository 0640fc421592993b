/**
 * The transfers of a sync as they run (src/engine/sync.ts): the concurrent fetch and the shared reader,
 * each over one store. What `SyncIndex` says of one chunk after the other holds in every interleaving.
 */
module Transfer {
  import opened Prelude
  import ChunkReader
  import opened ChunkStore
  import Fetch
  import Manifest
  import Sums
  import SyncIndex

  // ---------------------------------------------------------------- what is missing

  predicate Listed(refs: seq<Manifest.Ref>, hash: Text) {
    exists k :: 0 <= k < |refs| && refs[k].hash == hash
  }

  /** Each hash once that the store does not have. */
  function Missing(s: Store, refs: seq<Manifest.Ref>): (r: seq<Manifest.Ref>)
    ensures forall k :: 0 <= k < |refs| ==> HasChunk(s, refs[k].hash) || Listed(r, refs[k].hash)
  {
    if refs == [] then []
    else
      var front, last := Missing(s, refs[..|refs| - 1]), refs[|refs| - 1];
      if HasChunk(s, last.hash) || Listed(front, last.hash) then front
      else
        var r := front + [last];
        assert r[|front|].hash == last.hash && forall k :: 0 <= k < |front| ==> r[k] == front[k];
        r
  }

  // ------------------------------------------------------------ the fetch, on a store

  /** The fetch, the store it puts into, and what each worker has downloaded. */
  datatype Joint = Joint(fetch: Fetch.State, store: Store, carried: seq<Bytes>)

  /** A step of the fetch, the bytes a download delivers, and whether a put's transaction is refused. */
  datatype Event = Event(step: Fetch.Step, body: Bytes, fails: bool)

  predicate Shaped(missing: seq<Manifest.Ref>, x: Joint) {
    && |x.fetch.fates| == |missing| && |x.carried| == |x.fetch.workers|
    && forall w :: 0 <= w < |x.fetch.workers| && x.fetch.workers[w].Storing? ==> x.fetch.workers[w].i < |missing|
  }

  predicate Puts(e: Fetch.Step) {
    e.StoreOk? || e.StoreFails?
  }

  /** What the worker hands to the store. */
  function ChunkFor(missing: seq<Manifest.Ref>, x: Joint, w: nat): Chunk
    requires Shaped(missing, x) && w < |x.fetch.workers| && x.fetch.workers[w].Storing?
  {
    var ref := missing[x.fetch.workers[w].i];
    Chunk(ref.hash, ref.size, x.carried[w])
  }

  /** The step is what network and store answered: the bytes have their length, and a put fails exactly
      when the store throws. */
  predicate Happens(c: Primitives, missing: seq<Manifest.Ref>, x: Joint, e: Event) {
    && Shaped(missing, x) && Fetch.Enabled(x.fetch, e.step)
    && (e.step.FetchOk? ==> e.step.bytes == |e.body|)
    && (Puts(e.step) ==> (e.step.StoreFails? <==> PutThrows(c, x.store, ChunkFor(missing, x, e.step.w), e.fails)))
  }

  function Next(c: Primitives, missing: seq<Manifest.Ref>, x: Joint, e: Event): Joint
    requires Happens(c, missing, x, e)
  {
    Joint(Fetch.Next(x.fetch, e.step),
          if Puts(e.step) then Put(c, x.store, ChunkFor(missing, x, e.step.w), e.fails) else x.store,
          if e.step.FetchOk? then x.carried[e.step.w := e.body] else x.carried)
  }

  function Start(s: Store, missing: seq<Manifest.Ref>, cap: nat): Joint {
    var fetch := Fetch.Start(|missing|, cap);
    Joint(fetch, s, seq(|fetch.workers|, _ => []))
  }

  /** A run; a step that the network and the store do not answer so does not happen. */
  function After(c: Primitives, s: Store, missing: seq<Manifest.Ref>, cap: nat, run: seq<Event>): Joint {
    if run == [] then Start(s, missing, cap)
    else
      var before := After(c, s, missing, cap, run[..|run| - 1]);
      if Happens(c, missing, before, run[|run| - 1]) then Next(c, missing, before, run[|run| - 1]) else before
  }

  predicate IsRun(c: Primitives, s: Store, missing: seq<Manifest.Ref>, cap: nat, run: seq<Event>) {
    run == [] || (IsRun(c, s, missing, cap, run[..|run| - 1])
                  && Happens(c, missing, After(c, s, missing, cap, run[..|run| - 1]), run[|run| - 1]))
  }

  function Steps(run: seq<Event>): (steps: seq<Fetch.Step>)
    ensures |steps| == |run| && forall k :: 0 <= k < |run| ==> steps[k] == run[k].step
  {
    seq(|run|, k requires 0 <= k < |run| => run[k].step)
  }

  /** Its fetch is a run of `Fetch`. */
  lemma {:induction false} FetchRuns(c: Primitives, s: Store, missing: seq<Manifest.Ref>, cap: nat, run: seq<Event>)
    requires IsRun(c, s, missing, cap, run)
    ensures Fetch.IsRun(Fetch.Start(|missing|, cap), Steps(run))
    ensures After(c, s, missing, cap, run).fetch == Fetch.After(Fetch.Start(|missing|, cap), Steps(run))
  {
    if run != [] {
      FetchRuns(c, s, missing, cap, run[..|run| - 1]);
      assert Steps(run)[..|run| - 1] == Steps(run[..|run| - 1]);
    }
  }

  /** A chunk that counts as stored is in the store; nothing else of the store is touched. */
  predicate Delivered(s: Store, missing: seq<Manifest.Ref>, x: Joint) {
    && x.store.row == s.row && x.store.manifests == s.manifests
    && |x.fetch.fates| == |missing|
    && forall i :: 0 <= i < |missing| && x.fetch.fates[i].Stored? ==> HasChunk(x.store, missing[i].hash)
  }

  lemma PutLands(c: Primitives, s: Store, chunk: Chunk, fails: bool)
    requires !PutThrows(c, s, chunk, fails)
    ensures HasChunk(Put(c, s, chunk, fails), chunk.hash)
  {
    var rows := s.pending + [chunk];
    InsertedAreIn(s.table, rows);
    assert rows[|s.pending|].hash == chunk.hash;
    assert chunk.hash in set i | 0 <= i < |rows| :: rows[i].hash;
  }

  lemma PutDelivers(c: Primitives, s: Store, missing: seq<Manifest.Ref>, x: Joint, e: Event)
    requires Happens(c, missing, x, e) && Delivered(s, missing, x) && Puts(e.step)
    ensures Delivered(s, missing, Next(c, missing, x, e))
  {
    var y, chunk, at := Next(c, missing, x, e), ChunkFor(missing, x, e.step.w), x.fetch.workers[e.step.w].i;
    SyncIndex.PutsAndReadsKeepTheRest(c, x.store);
    if e.step.StoreOk? {
      PutLands(c, x.store, chunk, e.fails);
    }
    forall i | 0 <= i < |missing| && y.fetch.fates[i].Stored? ensures HasChunk(y.store, missing[i].hash) {
      if i != at {
        assert x.fetch.fates[i].Stored?;
        SyncIndex.PutsKeepChunks(c, x.store, chunk, e.fails, missing[i].hash);
      }
    }
  }

  lemma NextDelivers(c: Primitives, s: Store, missing: seq<Manifest.Ref>, x: Joint, e: Event)
    requires Happens(c, missing, x, e) && Delivered(s, missing, x)
    ensures Delivered(s, missing, Next(c, missing, x, e))
  {
    if Puts(e.step) {
      PutDelivers(c, s, missing, x, e);
    } else {
      var y := Next(c, missing, x, e);
      assert forall i :: 0 <= i < |missing| && y.fetch.fates[i].Stored? ==> x.fetch.fates[i].Stored?;
    }
  }

  lemma {:induction false} RunDelivers(c: Primitives, s: Store, missing: seq<Manifest.Ref>, cap: nat, run: seq<Event>)
    ensures Delivered(s, missing, After(c, s, missing, cap, run))
    ensures forall h :: HasChunk(s, h) ==> HasChunk(After(c, s, missing, cap, run).store, h)
  {
    if run != [] {
      var before, e := After(c, s, missing, cap, run[..|run| - 1]), run[|run| - 1];
      RunDelivers(c, s, missing, cap, run[..|run| - 1]);
      if Happens(c, missing, before, e) {
        NextDelivers(c, s, missing, before, e);
        NextKeepsChunks(c, missing, before, e);
      }
    }
  }

  lemma NextKeepsChunks(c: Primitives, missing: seq<Manifest.Ref>, x: Joint, e: Event)
    requires Happens(c, missing, x, e)
    ensures forall h :: HasChunk(x.store, h) ==> HasChunk(Next(c, missing, x, e).store, h)
  {
    forall h | HasChunk(x.store, h) ensures HasChunk(Next(c, missing, x, e).store, h) {
      if Puts(e.step) {
        SyncIndex.PutsKeepChunks(c, x.store, ChunkFor(missing, x, e.step.w), e.fails, h);
      }
    }
  }

  /**
   * However the eight workers interleave: when the fetch of what is missing returns normally, every
   * chunk that was asked for is in the store, at most the cap was transferred, and row and manifests are
   * as they were. This is what `SyncIndex.FetchMissing` promises.
   */
  lemma FetchDeliversEverything(c: Primitives, s: Store, refs: seq<Manifest.Ref>, cap: nat, run: seq<Event>)
    requires IsRun(c, s, Missing(s, refs), cap, run)
    requires var x := After(c, s, Missing(s, refs), cap, run); Fetch.Done(x.fetch) && x.fetch.failure.None?
    ensures var x := After(c, s, Missing(s, refs), cap, run);
            && SyncIndex.AllPresent(x.store, refs)
            && x.fetch.total <= cap && x.store.row == s.row && x.store.manifests == s.manifests
  {
    var missing := Missing(s, refs);
    var x := After(c, s, missing, cap, run);
    FetchRuns(c, s, missing, cap, run);
    RunDelivers(c, s, missing, cap, run);
    Fetch.ReturnsExactlyWhenAllStored(|missing|, cap, Steps(run));
    Fetch.BudgetIsReturned(|missing|, cap, Steps(run));
    forall k | 0 <= k < |refs| ensures HasChunk(x.store, refs[k].hash) {
      if !HasChunk(s, refs[k].hash) {
        assert Listed(missing, refs[k].hash);
        var i :| 0 <= i < |missing| && missing[i].hash == refs[k].hash;
        assert x.fetch.fates[i].Stored?;
      }
    }
  }

  /** Every download delivers the chunk's own bytes, and nothing fails on the way or is refused. */
  predicate Smooth(c: Primitives, s: Store, missing: seq<Manifest.Ref>, cap: nat, bodies: seq<Bytes>,
                   run: seq<Event>) {
    run == [] || (
      var front, e := run[..|run| - 1], run[|run| - 1];
      && Smooth(c, s, missing, cap, bodies, front) && !e.fails && !e.step.FetchFails?
      && (e.step.FetchOk? && Happens(c, missing, After(c, s, missing, cap, front), e) ==>
            var i := After(c, s, missing, cap, front).fetch.workers[e.step.w].i;
            i < |bodies| && e.body == bodies[i]))
  }

  predicate AllGood(c: Primitives, missing: seq<Manifest.Ref>, bodies: seq<Bytes>) {
    && |bodies| == |missing|
    && forall i :: 0 <= i < |missing| ==> Acceptable(c, Chunk(missing[i].hash, missing[i].size, bodies[i]))
  }

  function Lengths(bodies: seq<Bytes>): (sizes: seq<nat>)
    ensures |sizes| == |bodies| && forall i :: 0 <= i < |sizes| ==> sizes[i] == |bodies[i]|
  {
    seq(|bodies|, i requires 0 <= i < |bodies| => |bodies[i]|)
  }

  predicate CarriesItsChunk(x: Joint, bodies: seq<Bytes>) {
    && |x.carried| == |x.fetch.workers|
    && forall w :: 0 <= w < |x.fetch.workers| && x.fetch.workers[w].Storing? ==>
         x.fetch.workers[w].i < |bodies| && x.carried[w] == bodies[x.fetch.workers[w].i]
  }

  lemma NextCarries(c: Primitives, missing: seq<Manifest.Ref>, x: Joint, e: Event, bodies: seq<Bytes>)
    requires Happens(c, missing, x, e) && CarriesItsChunk(x, bodies)
    requires e.step.FetchOk? ==>
               x.fetch.workers[e.step.w].i < |bodies| && e.body == bodies[x.fetch.workers[e.step.w].i]
    ensures CarriesItsChunk(Next(c, missing, x, e), bodies)
  {
    var y := Next(c, missing, x, e);
    forall w | 0 <= w < |y.fetch.workers| && y.fetch.workers[w].Storing?
      ensures y.fetch.workers[w].i < |bodies| && y.carried[w] == bodies[y.fetch.workers[w].i]
    {
      if w != e.step.w { assert x.fetch.workers[w] == y.fetch.workers[w]; }
    }
  }

  lemma {:induction false} SmoothCarries(c: Primitives, s: Store, missing: seq<Manifest.Ref>, cap: nat,
                                         bodies: seq<Bytes>, run: seq<Event>)
    requires IsRun(c, s, missing, cap, run) && Smooth(c, s, missing, cap, bodies, run)
    ensures CarriesItsChunk(After(c, s, missing, cap, run), bodies)
  {
    if run != [] {
      var front, e := run[..|run| - 1], run[|run| - 1];
      SmoothCarries(c, s, missing, cap, bodies, front);
      NextCarries(c, missing, After(c, s, missing, cap, front), e, bodies);
    }
  }

  lemma GoodPutsSucceed(c: Primitives, missing: seq<Manifest.Ref>, x: Joint, e: Event, bodies: seq<Bytes>)
    requires Happens(c, missing, x, e) && CarriesItsChunk(x, bodies) && AllGood(c, missing, bodies) && !e.fails
    ensures !e.step.StoreFails?
  {
  }

  lemma {:induction false} SmoothRunsHaveNoErrors(c: Primitives, s: Store, missing: seq<Manifest.Ref>, cap: nat,
                                                  bodies: seq<Bytes>, run: seq<Event>)
    requires IsRun(c, s, missing, cap, run) && AllGood(c, missing, bodies) && Smooth(c, s, missing, cap, bodies, run)
    ensures Fetch.NoErrors(Steps(run))
  {
    if run != [] {
      var front, e := run[..|run| - 1], run[|run| - 1];
      SmoothRunsHaveNoErrors(c, s, missing, cap, bodies, front);
      SmoothCarries(c, s, missing, cap, bodies, front);
      GoodPutsSucceed(c, missing, After(c, s, missing, cap, front), e, bodies);
      assert forall k :: 0 <= k < |front| ==> Steps(run)[k] == Steps(front)[k];
    }
  }

  lemma {:induction false} SmoothRunsAreTruthful(c: Primitives, s: Store, missing: seq<Manifest.Ref>, cap: nat,
                                                 bodies: seq<Bytes>, run: seq<Event>)
    requires IsRun(c, s, missing, cap, run) && |bodies| == |missing| && Smooth(c, s, missing, cap, bodies, run)
    ensures Fetch.Truthful(Fetch.Start(|missing|, cap), Lengths(bodies), Steps(run))
  {
    if run != [] {
      var front := run[..|run| - 1];
      SmoothRunsAreTruthful(c, s, missing, cap, bodies, front);
      FetchRuns(c, s, missing, cap, front);
      assert Steps(run)[..|run| - 1] == Steps(front);
    }
  }

  /**
   * However the eight workers interleave: when every download delivers bytes the store accepts, nothing is
   * refused, and the sizes leave eight chunk maxima of the cap free, a fetch that is over has stored all.
   */
  lemma SmoothFetchesSucceed(c: Primitives, s: Store, refs: seq<Manifest.Ref>, cap: nat, bodies: seq<Bytes>,
                             run: seq<Event>)
    requires IsRun(c, s, Missing(s, refs), cap, run) && AllGood(c, Missing(s, refs), bodies)
    requires Smooth(c, s, Missing(s, refs), cap, bodies, run)
    requires Sums.Sum(Fetch.SIZE, Lengths(bodies)) + Fetch.MAX_WORKERS * Fetch.MAX_CHUNK <= cap
    requires Fetch.Done(After(c, s, Missing(s, refs), cap, run).fetch)
    ensures var x := After(c, s, Missing(s, refs), cap, run);
            x.fetch.failure.None? && SyncIndex.AllPresent(x.store, refs)
  {
    var missing := Missing(s, refs);
    FetchRuns(c, s, missing, cap, run);
    SmoothRunsHaveNoErrors(c, s, missing, cap, bodies, run);
    SmoothRunsAreTruthful(c, s, missing, cap, bodies, run);
    Fetch.LargeBudgetsSucceed(Lengths(bodies), cap, Steps(run));
    FetchDeliversEverything(c, s, refs, cap, run);
  }

  // ------------------------------------------------------- the reads, on a store

  /** The shared reader and the store it reads from; a hash of the reader is a place in `names`. */
  datatype Reading = Reading(reader: ChunkReader.State, store: Store)

  datatype ReadEvent = ReadEvent(step: ChunkReader.Step, fails: bool)

  predicate Known(names: seq<Manifest.Ref>, r: ChunkReader.State) {
    forall k :: 0 <= k < |r.queries| ==> r.queries[k].hash < |names|
  }

  /** What the store answers to the k-th read. */
  function StoreAnswer(c: Primitives, names: seq<Manifest.Ref>, x: Reading, k: nat,
                       fails: bool): (Store, Outcome<Bytes>)
    requires Known(names, x.reader) && k < |x.reader.queries|
  {
    var ref := names[x.reader.queries[k].hash];
    Read(c, x.store, ref.hash, ref.size, fails)
  }

  /** Chunks are asked for by name, and a read ends as the store answers it. */
  predicate ReadHappens(c: Primitives, names: seq<Manifest.Ref>, x: Reading, e: ReadEvent) {
    && Known(names, x.reader) && ChunkReader.Enabled(x.reader, e.step)
    && (e.step.Ask? ==> e.step.hash < |names|)
    && (e.step.Answer? ==>
          match StoreAnswer(c, names, x, e.step.k, e.fails).1
          case Ok(bytes) => e.step.outcome == ChunkReader.Resolved(bytes)
          case Threw => e.step.outcome.Rejected?)
  }

  function NextRead(c: Primitives, names: seq<Manifest.Ref>, x: Reading, e: ReadEvent): Reading
    requires ReadHappens(c, names, x, e)
  {
    Reading(ChunkReader.Next(x.reader, e.step),
            if e.step.Answer? then StoreAnswer(c, names, x, e.step.k, e.fails).0 else x.store)
  }

  function ReadsAfter(c: Primitives, names: seq<Manifest.Ref>, s: Store, run: seq<ReadEvent>): Reading {
    if run == [] then Reading(ChunkReader.START, s)
    else
      var before := ReadsAfter(c, names, s, run[..|run| - 1]);
      if ReadHappens(c, names, before, run[|run| - 1]) then NextRead(c, names, before, run[|run| - 1]) else before
  }

  predicate AllResolved(r: ChunkReader.State) {
    forall k :: 0 <= k < |r.queries| && ChunkReader.Ended(r.queries[k]) ==> r.queries[k].place.outcome.Resolved?
  }

  /** What a read resolved to is what the table has, still. */
  predicate ReadAgrees(c: Primitives, names: seq<Manifest.Ref>, x: Reading, k: nat)
    requires Known(names, x.reader) && k < |x.reader.queries|
  {
    ChunkReader.Ended(x.reader.queries[k]) ==>
      && x.reader.queries[k].place.outcome.Resolved?
      && SyncIndex.Plain(c, x.store.table, names[x.reader.queries[k].hash]) ==
           Some(x.reader.queries[k].place.outcome.bytes)
  }

  predicate ReadsAgree(c: Primitives, names: seq<Manifest.Ref>, x: Reading) {
    && Known(names, x.reader)
    && (AllResolved(x.reader) ==> forall k :: 0 <= k < |x.reader.queries| ==> ReadAgrees(c, names, x, k))
  }

  /** A read keeps its hash, and once it has ended its outcome. */
  predicate Stays(x: ChunkReader.Read, y: ChunkReader.Read) {
    && y.hash == x.hash
    && (ChunkReader.Ended(x) ==> ChunkReader.Ended(y) && y.place.outcome == x.place.outcome)
  }

  lemma ShiftStays(s: ChunkReader.State, k: nat)
    requires ChunkReader.Queued(s) && k < |s.queries|
    ensures |ChunkReader.Shift(s).queries| == |s.queries| && Stays(s.queries[k], ChunkReader.Shift(s).queries[k])
  {
  }

  lemma EnterStays(s: ChunkReader.State, j: nat, k: nat)
    requires ChunkReader.Queued(s) && j < |s.queries| && s.queries[j].place.Woken? && k < |s.queries|
    ensures |ChunkReader.Enter(s, j).queries| == |s.queries|
    ensures Stays(s.queries[k], ChunkReader.Enter(s, j).queries[k])
  {
    if s.active < ChunkReader.MAX_READS && s.failure.Some? {
      var outcome := ChunkReader.Rejected(s.failure.value);
      ShiftStays(s.(queries := ChunkReader.Move(s.queries, j, ChunkReader.Settled(outcome))), k);
    }
  }

  lemma EndedStay(s: ChunkReader.State, e: ChunkReader.Step, k: nat)
    requires ChunkReader.Sound(s) && ChunkReader.Enabled(s, e) && k < |s.queries|
    ensures |ChunkReader.Next(s, e).queries| >= |s.queries|
    ensures Stays(s.queries[k], ChunkReader.Next(s, e).queries[k])
  {
    match e
    case Ask(hash) =>
      if hash !in s.inFlight {
        EnterStays(s.(queries := s.queries + [ChunkReader.Read(hash, ChunkReader.Woken)]), |s.queries|, k);
      }
    case Resume(j) => EnterStays(s, j, k);
    case Answer(j, outcome) => ShiftStays(ChunkReader.Answered(s, j, outcome), k);
    case Forget(j) =>
  }

  /** A read ends as storage answered it, or refused. */
  lemma EndsAsAnswered(s: ChunkReader.State, e: ChunkReader.Step, k: nat)
    requires ChunkReader.Sound(s) && ChunkReader.Enabled(s, e)
    requires k < |ChunkReader.Next(s, e).queries| && ChunkReader.Ended(ChunkReader.Next(s, e).queries[k])
    ensures (k < |s.queries| && ChunkReader.Ended(s.queries[k]))
            || (e.Answer? && e.k == k && ChunkReader.Next(s, e).queries[k].place.outcome == e.outcome)
            || ChunkReader.Next(s, e).queries[k].place.outcome.Rejected?
  {
  }

  lemma AnswerEnds(s: ChunkReader.State, e: ChunkReader.Step)
    requires ChunkReader.Sound(s) && ChunkReader.Enabled(s, e) && e.Answer?
    ensures |ChunkReader.Next(s, e).queries| == |s.queries| && ChunkReader.Ended(ChunkReader.Next(s, e).queries[e.k])
    ensures ChunkReader.Next(s, e).queries[e.k].place.outcome == e.outcome
  {
  }

  lemma NewReadsAreKnown(s: ChunkReader.State, e: ChunkReader.Step, k: nat)
    requires ChunkReader.Sound(s) && ChunkReader.Enabled(s, e) && |s.queries| <= k < |ChunkReader.Next(s, e).queries|
    ensures e.Ask? && ChunkReader.Next(s, e).queries[k].hash == e.hash
  {
  }

  lemma NextIsKnown(c: Primitives, names: seq<Manifest.Ref>, x: Reading, e: ReadEvent)
    requires ChunkReader.Sound(x.reader) && ReadHappens(c, names, x, e)
    ensures Known(names, NextRead(c, names, x, e).reader)
  {
    var y := NextRead(c, names, x, e).reader;
    forall k | 0 <= k < |y.queries| ensures y.queries[k].hash < |names| {
      if k < |x.reader.queries| {
        EndedStay(x.reader, e.step, k);
      } else {
        NewReadsAreKnown(x.reader, e.step, k);
      }
    }
  }

  lemma StillResolved(c: Primitives, names: seq<Manifest.Ref>, x: Reading, e: ReadEvent)
    requires ChunkReader.Sound(x.reader) && ReadHappens(c, names, x, e)
    requires AllResolved(NextRead(c, names, x, e).reader)
    ensures AllResolved(x.reader)
  {
    forall k | 0 <= k < |x.reader.queries| && ChunkReader.Ended(x.reader.queries[k])
      ensures x.reader.queries[k].place.outcome.Resolved?
    {
      EndedStay(x.reader, e.step, k);
    }
  }

  /** While reads succeed the table keeps its rows. */
  lemma GoodReadsKeep(c: Primitives, names: seq<Manifest.Ref>, x: Reading, e: ReadEvent)
    requires ChunkReader.Sound(x.reader) && ReadHappens(c, names, x, e)
    requires AllResolved(NextRead(c, names, x, e).reader)
    ensures SyncIndex.Keeps(x.store.table, NextRead(c, names, x, e).store.table)
    ensures e.step.Answer? ==>
              e.step.outcome.Resolved?
              && SyncIndex.Plain(c, NextRead(c, names, x, e).store.table, names[x.reader.queries[e.step.k].hash])
                 == Some(e.step.outcome.bytes)
  {
    if e.step.Answer? {
      AnswerEnds(x.reader, e.step);
      SyncIndex.ReadsAreVerified(c, x.store, names[x.reader.queries[e.step.k].hash], e.fails);
    }
  }

  lemma KeptPlain(c: Primitives, table: SyncIndex.Table, later: SyncIndex.Table, ref: Manifest.Ref)
    requires SyncIndex.Keeps(table, later) && SyncIndex.Plain(c, table, ref).Some?
    ensures SyncIndex.Plain(c, later, ref) == SyncIndex.Plain(c, table, ref)
  {
  }

  lemma NextReadAgrees(c: Primitives, names: seq<Manifest.Ref>, x: Reading, e: ReadEvent)
    requires ChunkReader.Sound(x.reader) && ReadHappens(c, names, x, e) && ReadsAgree(c, names, x)
    ensures ReadsAgree(c, names, NextRead(c, names, x, e))
  {
    var y := NextRead(c, names, x, e);
    NextIsKnown(c, names, x, e);
    if AllResolved(y.reader) {
      StillResolved(c, names, x, e);
      GoodReadsKeep(c, names, x, e);
      forall k | 0 <= k < |y.reader.queries| ensures ReadAgrees(c, names, y, k) {
        if ChunkReader.Ended(y.reader.queries[k]) {
          EndedAgrees(c, names, x, e, k);
        }
      }
    }
  }

  lemma EndedAgrees(c: Primitives, names: seq<Manifest.Ref>, x: Reading, e: ReadEvent, k: nat)
    requires ChunkReader.Sound(x.reader) && ReadHappens(c, names, x, e) && Known(names, NextRead(c, names, x, e).reader)
    requires AllResolved(x.reader) && AllResolved(NextRead(c, names, x, e).reader)
    requires forall j :: 0 <= j < |x.reader.queries| ==> ReadAgrees(c, names, x, j)
    requires k < |NextRead(c, names, x, e).reader.queries|
    requires ChunkReader.Ended(NextRead(c, names, x, e).reader.queries[k])
    ensures ReadAgrees(c, names, NextRead(c, names, x, e), k)
  {
    GoodReadsKeep(c, names, x, e);
    EndsAsAnswered(x.reader, e.step, k);
    if k < |x.reader.queries| {
      EndedStay(x.reader, e.step, k);
      if ChunkReader.Ended(x.reader.queries[k]) {
        assert ReadAgrees(c, names, x, k);
        KeptPlain(c, x.store.table, NextRead(c, names, x, e).store.table, names[x.reader.queries[k].hash]);
      }
    }
  }

  /** However callers, answers and woken reads interleave, while no read fails every one that has ended gave
      what the table has. */
  lemma {:induction false} ReadsAgreeWithTheTable(c: Primitives, names: seq<Manifest.Ref>, s: Store,
                                                  run: seq<ReadEvent>)
    ensures ChunkReader.Sound(ReadsAfter(c, names, s, run).reader) && ReadsAgree(c, names, ReadsAfter(c, names, s, run))
    ensures ReadsAfter(c, names, s, run).store.row == s.row
    ensures ReadsAfter(c, names, s, run).store.manifests == s.manifests
  {
    if run == [] {
      ChunkReader.RunIsSound([]);
    } else {
      var before, e := ReadsAfter(c, names, s, run[..|run| - 1]), run[|run| - 1];
      ReadsAgreeWithTheTable(c, names, s, run[..|run| - 1]);
      if ReadHappens(c, names, before, e) {
        ChunkReader.NextIsSound(before.reader, e.step);
        NextReadAgrees(c, names, before, e);
        SyncIndex.PutsAndReadsKeepTheRest(c, before.store);
      }
    }
  }
}
