/**
 * Progress accounting and the retry loop (src/engine/sync.ts). A chunk is named by its place in the
 * list of missing chunks, which never repeats a hash.
 */
module Progress {
  import opened Prelude
  import Fetch

  // ---------------------------------------------------------------- the counters

  datatype Counters = Counters(inFlight: map<nat, real>, done: nat, completed: nat, wire: nat)

  /** A "chunks" report. */
  datatype Report = Report(fetchedChunks: nat, totalChunks: nat, bytesFetched: nat, bytesTotal: nat, bytesDone: int)

  function Total(sizes: seq<nat>): nat {
    if sizes == [] then 0 else Total(sizes[..|sizes| - 1]) + sizes[|sizes| - 1]
  }

  /** The share of a chunk that has arrived, by declared wire size when there is one. */
  function Fraction(size: nat, received: nat, declared: Option<int>): real {
    if declared.None? || declared.value <= 0 then Min(size, received) as real
    else
      var share := received as real / declared.value as real;
      size as real * (if share < 1.0 then share else 1.0)
  }

  /** Sum of the fractions of chunks below `n`. */
  function Partial(inFlight: map<nat, real>, n: nat): real {
    if n == 0 then 0.0
    else Partial(inFlight, n - 1) + (if n - 1 in inFlight then inFlight[n - 1] else 0.0)
  }

  function ReportOf(sizes: seq<nat>, c: Counters): Report {
    Report(c.completed, |sizes|, c.wire, Total(sizes), c.done + Partial(c.inFlight, |sizes|).Floor)
  }

  function OnBytes(sizes: seq<nat>, c: Counters, i: nat, received: nat, declared: Option<int>): Counters
    requires i < |sizes|
  {
    c.(inFlight := c.inFlight[i := Fraction(sizes[i], received, declared)])
  }

  function OnRetry(c: Counters, i: nat): Counters {
    c.(inFlight := c.inFlight - {i})
  }

  function Completed(sizes: seq<nat>, c: Counters, i: nat, wireBytes: nat): Counters
    requires i < |sizes|
  {
    Counters(c.inFlight - {i}, c.done + sizes[i], c.completed + 1, c.wire + wireBytes)
  }

  lemma {:induction false} PartialWithout(m: map<nat, real>, k: nat, n: nat)
    requires k in m
    ensures Partial(m - {k}, n) == Partial(m, n) - if k < n then m[k] else 0.0
  {
    if n > 0 {
      PartialWithout(m, k, n - 1);
    }
  }

  lemma {:induction false} PartialOfNone(n: nat)
    ensures Partial(map[], n) == 0.0
  {
    if n > 0 {
      PartialOfNone(n - 1);
    }
  }

  class ChunkProgress {
    const sizes: seq<nat>
    var inFlight: map<nat, real>
    var done: nat
    var completed: nat
    var wireBytes: nat
    /** Time of the last report; none before the first. */
    var lastReport: Option<int>

    ghost function Now(): Counters reads this {
      Counters(inFlight, done, completed, wireBytes)
    }

    ghost predicate Valid() reads this {
      forall k <- inFlight :: k < |sizes|
    }

    constructor (missing: seq<nat>)
      ensures sizes == missing && Valid() && Now() == Counters(map[], 0, 0, 0) && lastReport.None?
    {
      sizes := missing;
      inFlight, done, completed, wireBytes, lastReport := map[], 0, 0, 0, None;
    }

    /** Reports at most once an interval unless forced; what it reports is the counters' own sum. */
    method Emit(force: bool, now: int, interval: nat) returns (report: Option<Report>)
      requires Valid()
      modifies this`lastReport
      ensures Now() == old(Now())
      ensures report.None? <==> !force && old(lastReport).Some? && now - old(lastReport).value < interval
      ensures report.Some? ==> report.value == ReportOf(sizes, Now()) && lastReport == Some(now)
      ensures report.None? ==> lastReport == old(lastReport)
    {
      if !force && lastReport.Some? && now - lastReport.value < interval {
        return None;
      }
      lastReport := Some(now);
      var partial, rest := 0.0, inFlight;
      while rest != map[]
        invariant lastReport == Some(now) && rest.Keys <= inFlight.Keys
        invariant partial + Partial(rest, |sizes|) == Partial(inFlight, |sizes|)
        decreases |rest|
      {
        var k :| k in rest;
        PartialWithout(rest, k, |sizes|);
        partial, rest := partial + rest[k], rest - {k};
      }
      PartialOfNone(|sizes|);
      var total := Sum();
      report := Some(Report(completed, |sizes|, wireBytes, total, done + partial.Floor));
    }

    method Sum() returns (total: nat)
      ensures total == Total(sizes)
    {
      total := 0;
      for k := 0 to |sizes|
        invariant total == Total(sizes[..k])
      {
        assert sizes[..k + 1][..k] == sizes[..k];
        total := total + sizes[k];
      }
      assert sizes[..|sizes|] == sizes;
    }

    method TransferOnBytes(i: nat, received: nat, declared: Option<int>, now: int, interval: nat)
        returns (report: Option<Report>)
      requires Valid() && i < |sizes|
      modifies this
      ensures Valid() && Now() == OnBytes(sizes, old(Now()), i, received, declared)
      ensures report.None? <==> old(lastReport).Some? && now - old(lastReport).value < interval
      ensures report.Some? ==> report.value == ReportOf(sizes, Now()) && lastReport == Some(now)
      ensures report.None? ==> lastReport == old(lastReport)
    {
      inFlight := inFlight[i := Fraction(sizes[i], received, declared)];
      report := Emit(false, now, interval);
    }

    method TransferOnRetry(i: nat)
      requires Valid()
      modifies this
      ensures Valid() && Now() == OnRetry(old(Now()), i) && lastReport == old(lastReport)
    {
      inFlight := inFlight - {i};
    }

    method ChunkCompleted(i: nat, wire: nat, now: int, interval: nat) returns (report: Option<Report>)
      requires Valid() && i < |sizes|
      modifies this
      ensures Valid() && Now() == Completed(sizes, old(Now()), i, wire)
      ensures report == Some(ReportOf(sizes, Now())) && lastReport == Some(now)
    {
      inFlight := inFlight - {i};
      done, completed, wireBytes := done + sizes[i], completed + 1, wireBytes + wire;
      report := Emit(true, now, interval);
    }
  }

  // --------------------------------------------- progress during a concurrent fetch

  /** A step of the fetch, or a progress callback of the transfer a worker is in. */
  datatype Step =
    | Fetching(step: Fetch.Step)
    | Bytes(w: nat, received: nat, declared: Option<int>)
    | Retry(w: nat)

  datatype State = State(fetch: Fetch.State, counters: Counters)

  predicate Enabled(s: State, sizes: seq<nat>, e: Step) {
    match e
    case Fetching(step) => Fetch.Enabled(s.fetch, step)
    case Bytes(w, _, _) => w < |s.fetch.workers| && s.fetch.workers[w].Fetching? && s.fetch.workers[w].i < |sizes|
    case Retry(w) => w < |s.fetch.workers| && s.fetch.workers[w].Fetching?
  }

  function Next(s: State, sizes: seq<nat>, e: Step): State
    requires Enabled(s, sizes, e)
  {
    match e
    case Fetching(step) =>
      State(Fetch.Next(s.fetch, step),
            if step.StoreOk? && s.fetch.workers[step.w].i < |sizes| then
              Completed(sizes, s.counters, s.fetch.workers[step.w].i, s.fetch.workers[step.w].u)
            else s.counters)
    case Bytes(w, received, declared) =>
      s.(counters := OnBytes(sizes, s.counters, s.fetch.workers[w].i, received, declared))
    case Retry(w) => s.(counters := OnRetry(s.counters, s.fetch.workers[w].i))
  }

  ghost function After(s: State, sizes: seq<nat>, run: seq<Step>): State {
    if run == [] then s
    else
      var before := After(s, sizes, run[..|run| - 1]);
      if Enabled(before, sizes, run[|run| - 1]) then Next(before, sizes, run[|run| - 1]) else before
  }

  function Start(sizes: seq<nat>, cap: nat): State {
    State(Fetch.Start(|sizes|, cap), Counters(map[], 0, 0, 0))
  }

  /** Sizes of the stored chunks, and their number. */
  function DoneBytes(fates: seq<Fetch.Fate>, sizes: seq<nat>): nat
    requires |fates| == |sizes|
  {
    if fates == [] then 0
    else DoneBytes(fates[..|fates| - 1], sizes[..|sizes| - 1])
         + if fates[|fates| - 1].Stored? then sizes[|sizes| - 1] else 0
  }

  /** Only unstored chunks are counted by fraction, and a fraction never exceeds its chunk. */
  predicate Accounted(c: Counters, fates: seq<Fetch.Fate>, sizes: seq<nat>) {
    && |fates| == |sizes|
    && c.done == DoneBytes(fates, sizes)
    && (forall k <- c.inFlight :: k < |fates| && !fates[k].Stored? && 0.0 <= c.inFlight[k] <= sizes[k] as real)
  }

  lemma FractionIsBounded(size: nat, received: nat, declared: Option<int>)
    ensures 0.0 <= Fraction(size, received, declared) <= size as real
  {
    if declared.Some? && declared.value > 0 {
      ShareIsNatural(received as real, declared.value as real);
      var share := received as real / declared.value as real;
      ScaledDown(size as real, if share < 1.0 then share else 1.0);
    }
  }

  lemma ShareIsNatural(x: real, y: real)
    requires x >= 0.0 && y > 0.0
    ensures x / y >= 0.0
  {
  }

  lemma ScaledDown(x: real, y: real)
    requires x >= 0.0 && 0.0 <= y <= 1.0
    ensures 0.0 <= x * y <= x
  {
  }

  /** A chunk counts by the share of its wire bytes, in full from the last of them on; without a declared wire
      size by the bytes themselves, up to its size. */
  lemma FractionMeaning(size: nat, received: nat, declared: Option<int>)
    ensures var f := Fraction(size, received, declared);
            if declared.Some? && declared.value > 0 then
              (if received >= declared.value then f == size as real
               else f * declared.value as real == size as real * received as real)
            else f == Min(size, received) as real
  {
    if declared.Some? && declared.value > 0 {
      var wire, got := declared.value as real, received as real;
      assert got / wire * wire == got;
      if received >= declared.value {
        assert got / wire >= 1.0 by { AtLeastOne(got, wire); }
      } else {
        BelowOne(got, wire);
        Regroup(size as real, got / wire, wire);
      }
    }
  }

  lemma AtLeastOne(x: real, y: real)
    requires x >= y > 0.0
    ensures x / y >= 1.0
  {
  }

  lemma BelowOne(x: real, y: real)
    requires 0.0 <= x < y
    ensures x / y < 1.0
  {
  }

  lemma Regroup(x: real, y: real, z: real)
    ensures x * y * z == x * (y * z)
  {
  }

  lemma {:induction false} DoneBytesUpdate(fates: seq<Fetch.Fate>, sizes: seq<nat>, i: nat, fate: Fetch.Fate)
    requires |fates| == |sizes| && i < |fates| && !fates[i].Stored?
    ensures DoneBytes(fates[i := fate], sizes) == DoneBytes(fates, sizes) + if fate.Stored? then sizes[i] else 0
  {
    var n := |fates| - 1;
    if i < n {
      DoneBytesUpdate(fates[..n], sizes[..n], i, fate);
      assert fates[i := fate][..n] == fates[..n][i := fate];
    } else {
      assert fates[i := fate][..n] == fates[..n];
    }
  }

  /** Fractions and finished sizes together never exceed the sum of all sizes. */
  lemma {:induction false} SharesFit(c: map<nat, real>, fates: seq<Fetch.Fate>, sizes: seq<nat>)
    requires |fates| == |sizes|
    requires forall k <- c :: k < |fates| ==> !fates[k].Stored? && 0.0 <= c[k] <= sizes[k] as real
    ensures 0.0 <= Partial(c, |sizes|) && DoneBytes(fates, sizes) as real + Partial(c, |sizes|) <= Total(sizes) as real
  {
    if sizes != [] {
      SharesFit(c, fates[..|fates| - 1], sizes[..|sizes| - 1]);
    }
  }

  /** What a fetch step does to the fates. */
  lemma StepFates(f: Fetch.State, step: Fetch.Step, cap: nat)
    requires Fetch.Sound(f, cap) && Fetch.Enabled(f, step)
    ensures Fetch.Holds(f.workers[step.w]) ==>
              f.workers[step.w].i < |f.fates| && f.fates[f.workers[step.w].i].Open?
    ensures !Fetch.Holds(f.workers[step.w]) ==> Fetch.Next(f, step).fates == f.fates
    ensures step.StoreOk? ==>
              Fetch.Next(f, step).fates == f.fates[f.workers[step.w].i := Fetch.Stored(f.workers[step.w].u)]
    ensures step.StoreOk? || Fetch.Next(f, step).fates == f.fates
            || exists u :: Fetch.Next(f, step).fates == f.fates[f.workers[step.w].i := Fetch.Dropped(u)]
  {
    assert Fetch.WorkerOk(f, f.workers[step.w]);
    match step
    case Take(w) =>
    case Resume(w) =>
    case Refuse(w) => assert Fetch.Next(f, step).fates == f.fates[f.workers[w].i := Fetch.Dropped(0)];
    case FetchOk(w, bytes) =>
      assert f.failure.Some? ==> Fetch.Next(f, step).fates == f.fates[f.workers[w].i := Fetch.Dropped(0)];
    case FetchFails(w, _) => assert Fetch.Next(f, step).fates == f.fates[f.workers[w].i := Fetch.Dropped(0)];
    case StoreOk(w) =>
    case StoreFails(w, _) =>
      assert Fetch.Next(f, step).fates == f.fates[f.workers[w].i := Fetch.Dropped(f.workers[w].u)];
  }

  lemma FetchStepAccounted(s: State, sizes: seq<nat>, step: Fetch.Step, cap: nat)
    requires Fetch.Sound(s.fetch, cap) && Accounted(s.counters, s.fetch.fates, sizes) && Fetch.Enabled(s.fetch, step)
    ensures Accounted(Next(s, sizes, Fetching(step)).counters, Next(s, sizes, Fetching(step)).fetch.fates, sizes)
  {
    StepFates(s.fetch, step, cap);
    var x, after := s.fetch.workers[step.w], Fetch.Next(s.fetch, step).fates;
    if step.StoreOk? {
      DoneBytesUpdate(s.fetch.fates, sizes, x.i, Fetch.Stored(x.u));
    } else if after != s.fetch.fates {
      var u :| after == s.fetch.fates[x.i := Fetch.Dropped(u)];
      DoneBytesUpdate(s.fetch.fates, sizes, x.i, Fetch.Dropped(u));
    }
  }

  lemma NextAccounted(s: State, sizes: seq<nat>, e: Step, cap: nat)
    requires Fetch.Sound(s.fetch, cap) && Accounted(s.counters, s.fetch.fates, sizes) && Enabled(s, sizes, e)
    ensures Accounted(Next(s, sizes, e).counters, Next(s, sizes, e).fetch.fates, sizes)
    ensures Fetch.Sound(Next(s, sizes, e).fetch, cap)
  {
    match e
    case Fetching(step) =>
      FetchStepAccounted(s, sizes, step, cap);
      Fetch.NextIsSound(s.fetch, step, cap);
    case Bytes(w, received, declared) =>
      assert Fetch.WorkerOk(s.fetch, s.fetch.workers[w]);
      FractionIsBounded(sizes[s.fetch.workers[w].i], received, declared);
    case Retry(w) =>
  }

  lemma {:induction false} NoneDone(fates: seq<Fetch.Fate>, sizes: seq<nat>)
    requires |fates| == |sizes| && forall k :: 0 <= k < |fates| ==> !fates[k].Stored?
    ensures DoneBytes(fates, sizes) == 0
  {
    if fates != [] {
      NoneDone(fates[..|fates| - 1], sizes[..|sizes| - 1]);
    }
  }

  lemma {:induction false} RunAccounted(sizes: seq<nat>, cap: nat, run: seq<Step>)
    ensures var s := After(Start(sizes, cap), sizes, run);
            Fetch.Sound(s.fetch, cap) && Accounted(s.counters, s.fetch.fates, sizes)
  {
    if run == [] {
      Fetch.StartIsSound(|sizes|, cap);
      NoneDone(Fetch.Start(|sizes|, cap).fates, sizes);
    } else {
      RunAccounted(sizes, cap, run[..|run| - 1]);
      var before := After(Start(sizes, cap), sizes, run[..|run| - 1]);
      if Enabled(before, sizes, run[|run| - 1]) {
        NextAccounted(before, sizes, run[|run| - 1], cap);
      }
    }
  }

  /** Whatever the workers and the network do, a report never claims more than the total. */
  lemma ReportsNeverOvershoot(sizes: seq<nat>, cap: nat, run: seq<Step>)
    ensures var r := ReportOf(sizes, After(Start(sizes, cap), sizes, run).counters);
            0 <= r.bytesDone <= r.bytesTotal
  {
    RunAccounted(sizes, cap, run);
    var s := After(Start(sizes, cap), sizes, run);
    SharesFit(s.counters.inFlight, s.fetch.fates, sizes);
  }

  lemma {:induction false} AllDone(fates: seq<Fetch.Fate>, sizes: seq<nat>)
    requires |fates| == |sizes| && forall k :: 0 <= k < |fates| ==> fates[k].Stored?
    ensures DoneBytes(fates, sizes) == Total(sizes)
  {
    if fates != [] {
      AllDone(fates[..|fates| - 1], sizes[..|sizes| - 1]);
    }
  }

  /** Once every chunk is stored the report is exactly the total. */
  lemma LastReportIsTheTotal(sizes: seq<nat>, cap: nat, run: seq<Step>)
    requires forall k :: 0 <= k < |After(Start(sizes, cap), sizes, run).fetch.fates| ==>
               After(Start(sizes, cap), sizes, run).fetch.fates[k].Stored?
    ensures var r := ReportOf(sizes, After(Start(sizes, cap), sizes, run).counters); r.bytesDone == r.bytesTotal
  {
    RunAccounted(sizes, cap, run);
    var s := After(Start(sizes, cap), sizes, run);
    AllDone(s.fetch.fates, sizes);
    assert s.counters.inFlight == map[];
    PartialOfNone(|sizes|);
  }

  /** How many chunks are stored, and how much was transferred for them. */
  function StoredChunks(fates: seq<Fetch.Fate>): nat {
    if fates == [] then 0
    else StoredChunks(fates[..|fates| - 1]) + if fates[|fates| - 1].Stored? then 1 else 0
  }

  function StoredBytes(fates: seq<Fetch.Fate>): nat {
    if fates == [] then 0
    else StoredBytes(fates[..|fates| - 1]) + if fates[|fates| - 1].Stored? then fates[|fates| - 1].u else 0
  }

  lemma {:induction false} StoredUpdate(fates: seq<Fetch.Fate>, i: nat, fate: Fetch.Fate)
    requires i < |fates| && !fates[i].Stored?
    ensures StoredChunks(fates[i := fate]) == StoredChunks(fates) + if fate.Stored? then 1 else 0
    ensures StoredBytes(fates[i := fate]) == StoredBytes(fates) + if fate.Stored? then fate.u else 0
  {
    var n := |fates| - 1;
    if i < n {
      StoredUpdate(fates[..n], i, fate);
      assert fates[i := fate][..n] == fates[..n][i := fate];
    } else {
      assert fates[i := fate][..n] == fates[..n];
    }
  }

  lemma {:induction false} NoneStored(fates: seq<Fetch.Fate>)
    requires forall k :: 0 <= k < |fates| ==> !fates[k].Stored?
    ensures StoredChunks(fates) == 0 && StoredBytes(fates) == 0
  {
    if fates != [] {
      NoneStored(fates[..|fates| - 1]);
    }
  }

  lemma StepCounts(s: State, sizes: seq<nat>, step: Fetch.Step, cap: nat)
    requires Fetch.Sound(s.fetch, cap) && Fetch.Enabled(s.fetch, step) && |s.fetch.fates| == |sizes|
    requires s.counters.completed == StoredChunks(s.fetch.fates) && s.counters.wire == StoredBytes(s.fetch.fates)
    ensures var t := Next(s, sizes, Fetching(step));
            t.counters.completed == StoredChunks(t.fetch.fates) && t.counters.wire == StoredBytes(t.fetch.fates)
  {
    StepFates(s.fetch, step, cap);
    var x, after := s.fetch.workers[step.w], Fetch.Next(s.fetch, step).fates;
    if step.StoreOk? {
      StoredUpdate(s.fetch.fates, x.i, Fetch.Stored(x.u));
    } else if after != s.fetch.fates {
      var u :| after == s.fetch.fates[x.i := Fetch.Dropped(u)];
      StoredUpdate(s.fetch.fates, x.i, Fetch.Dropped(u));
    }
  }

  /** In every interleaving a report counts exactly the stored chunks and the bytes transferred for them. */
  lemma {:induction false} ReportsCountTheStored(sizes: seq<nat>, cap: nat, run: seq<Step>)
    ensures var s := After(Start(sizes, cap), sizes, run);
            var r := ReportOf(sizes, s.counters);
            && r.fetchedChunks == StoredChunks(s.fetch.fates) && r.bytesFetched == StoredBytes(s.fetch.fates)
            && r.totalChunks == |sizes|
  {
    if run == [] {
      NoneStored(Fetch.Start(|sizes|, cap).fates);
    } else {
      var front, e := run[..|run| - 1], run[|run| - 1];
      ReportsCountTheStored(sizes, cap, front);
      RunAccounted(sizes, cap, front);
      var before := After(Start(sizes, cap), sizes, front);
      if e.Fetching? && Enabled(before, sizes, e) { StepCounts(before, sizes, e.step, cap); }
    }
  }

  /** The chunk a worker's callback or put is for. */
  function ChunkOf(s: State, w: nat): nat {
    if w < |s.fetch.workers| && Fetch.Holds(s.fetch.workers[w]) then s.fetch.workers[w].i else |s.fetch.fates|
  }

  /** The share of chunk `i` that counts: that of the last bytes received since its last retry, until it is
      stored. */
  ghost function Share(sizes: seq<nat>, cap: nat, run: seq<Step>, i: nat): Option<real>
    requires i < |sizes|
  {
    if run == [] then None
    else
      var front, e := run[..|run| - 1], run[|run| - 1];
      var before := After(Start(sizes, cap), sizes, front);
      if !Enabled(before, sizes, e) then Share(sizes, cap, front, i)
      else
        match e
        case Bytes(w, received, declared) =>
          if ChunkOf(before, w) == i then Some(Fraction(sizes[i], received, declared))
          else Share(sizes, cap, front, i)
        case Retry(w) => if ChunkOf(before, w) == i then None else Share(sizes, cap, front, i)
        case Fetching(step) =>
          if step.StoreOk? && ChunkOf(before, step.w) == i then None else Share(sizes, cap, front, i)
  }

  /** In every interleaving each chunk counts with exactly that share. */
  lemma {:induction false} SharesAreCurrent(sizes: seq<nat>, cap: nat, run: seq<Step>, i: nat)
    requires i < |sizes|
    ensures var shares := After(Start(sizes, cap), sizes, run).counters.inFlight;
            Share(sizes, cap, run, i) == if i in shares then Some(shares[i]) else None
  {
    if run != [] {
      SharesAreCurrent(sizes, cap, run[..|run| - 1], i);
      RunAccounted(sizes, cap, run[..|run| - 1]);
    }
  }

  /** The proviso matters: bytes counted for a chunk already completed make a report overshoot. */
  lemma LateBytesOvershoot()
    ensures var c := OnBytes([10], Completed([10], Counters(map[], 0, 0, 0), 0, 4), 0, 5, None);
            ReportOf([10], c).bytesDone > ReportOf([10], c).bytesTotal
  {
    var c := OnBytes([10], Completed([10], Counters(map[], 0, 0, 0), 0, 4), 0, 5, None);
    assert c.inFlight == map[0 := 5.0];
    assert Partial(c.inFlight, 0) == 0.0 && Partial(c.inFlight, 1) == 5.0;
    assert [10][..0] == [] && Total([]) == 0;
    assert Total([10]) == 10;
  }

  // ------------------------------------------------------------------ retry delays

  const ATTEMPTS: nat := 6
  const BASE_DELAY: real := 250.0

  function Power(k: nat): nat {
    if k == 0 then 1 else 2 * Power(k - 1)
  }

  /** `MAX_CHUNK_RETRY_BUDGET_MS`, for any base and attempt count. */
  function RetryBudget(base: real, attempts: nat): real
    requires attempts > 0
  {
    base * (Power(attempts - 1) - 1) as real + base * (attempts - 1) as real
  }

  /** What one attempt ended with. */
  datatype Attempt = Arrived(bytes: nat) | NetworkFailure | OtherFailure

  /** The first attempt that is not a network failure decides. */
  function Verdict(outcomes: seq<Attempt>): Attempt {
    if outcomes == [] then NetworkFailure
    else if outcomes[0] != NetworkFailure then outcomes[0]
    else Verdict(outcomes[1..])
  }

  /** Distributing over one attempt more. */
  lemma OneAttemptMore(base: real, p: real, k: real)
    ensures base * (2.0 * p - 1.0) + base * (k + 1.0) == base * p + (base * (p - 1.0) + base * k) + base
  {
    assert base * (2.0 * p - 1.0) == base * p + base * (p - 1.0);
    assert base * (k + 1.0) == base * k + base;
  }

  /** One attempt more allows one doubled delay more, and one base. */
  lemma {:induction false} BudgetStep(base: real, k: nat)
    ensures RetryBudget(base, k + 2) == base * Power(k) as real + RetryBudget(base, k + 1) + base
  {
    var p, n := Power(k) as real, k as real;
    assert (Power(k) - 1) as real == p - 1.0 && (Power(k + 1) - 1) as real == 2.0 * p - 1.0;
    assert RetryBudget(base, k + 1) == base * (p - 1.0) + base * n;
    assert (k + 1) as real == n + 1.0;
    assert RetryBudget(base, k + 2) == base * (2.0 * p - 1.0) + base * (n + 1.0);
    OneAttemptMore(base, p, n);
  }

  lemma JitterIsBelowBase(base: real, random: real)
    requires base > 0.0 && 0.0 <= random < 1.0
    ensures random * base < base
  {
  }

  lemma {:induction false} BudgetGrows(base: real, k: nat, random: real)
    requires base > 0.0 && 0.0 <= random < 1.0
    ensures base * Power(k) as real + random * base + RetryBudget(base, k + 1) < RetryBudget(base, k + 2)
  {
    var delay, jitter, less, more :=
      base * Power(k) as real, random * base, RetryBudget(base, k + 1), RetryBudget(base, k + 2);
    JitterIsBelowBase(base, random);
    BudgetStep(base, k);
    assert more == delay + less + base && jitter < base;
  }

  lemma {:induction false} BudgetIsMonotone(base: real, a: nat, b: nat)
    requires base > 0.0 && 1 <= a <= b
    ensures RetryBudget(base, a) <= RetryBudget(base, b)
    decreases b
  {
    if a < b {
      BudgetIsMonotone(base, a, b - 1);
      BudgetGrows(base, b - 2, 0.0);
      assert base * Power(b - 2) as real >= 0.0;
    }
  }

  /**
   * `fetchChunkWithRetry`: the attempt that decides decides the result, and the backoff slept in
   * total stays strictly below the closed form, whatever the random jitter and the attempt count.
   */
  method FetchChunkWithRetry(outcomes: seq<Attempt>, randoms: seq<real>, base: real)
      returns (result: Attempt, slept: real)
    requires |outcomes| == |randoms| >= 1 && base > 0.0
    requires forall k :: 0 <= k < |randoms| ==> 0.0 <= randoms[k] < 1.0
    ensures result == Verdict(outcomes)
    ensures 0.0 <= slept
    ensures if |outcomes| == 1 then slept == 0.0 else slept < RetryBudget(base, |outcomes|)
  {
    slept := 0.0;
    var backoff := base;
    for attempt := 0 to |outcomes|
      invariant 0.0 <= slept
      invariant backoff == base * Power(attempt) as real
      invariant attempt == 0 ==> slept == 0.0
      invariant 0 < attempt < |outcomes| ==> slept < RetryBudget(base, attempt + 1)
      invariant attempt == |outcomes| ==>
                  if |outcomes| == 1 then slept == 0.0 else slept < RetryBudget(base, |outcomes|)
      invariant Verdict(outcomes) == Verdict(outcomes[attempt..])
    {
      if outcomes[attempt] != NetworkFailure {
        if attempt > 0 {
          BudgetIsMonotone(base, attempt + 1, |outcomes|);
        } else if |outcomes| > 1 {
          BudgetIsPositive(base, |outcomes|);
        }
        return outcomes[attempt], slept;
      }
      if attempt + 1 < |outcomes| {
        assert randoms[attempt] * base >= 0.0;
        BudgetGrows(base, attempt, randoms[attempt]);
        slept := slept + (backoff + randoms[attempt] * base);
      }
      backoff := backoff * 2.0;
      assert Power(attempt + 1) as real == 2.0 * Power(attempt) as real;
    }
    result := NetworkFailure;
  }

  lemma BudgetIsPositive(base: real, attempts: nat)
    requires base > 0.0 && attempts > 1
    ensures RetryBudget(base, attempts) > 0.0
  {
    BudgetIsMonotone(base, 2, attempts);
    assert Power(1) == 2 * Power(0);
    assert RetryBudget(base, 2) == base + base;
  }

  /** The constant the source exports. */
  lemma RetryBudgetIsNineSeconds()
    ensures RetryBudget(BASE_DELAY, ATTEMPTS) == 9000.0
  {
    assert Power(1) == 2 && Power(2) == 4 && Power(3) == 8 && Power(4) == 16 && Power(5) == 32;
  }
}
