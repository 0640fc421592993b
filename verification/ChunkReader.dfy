/**
 * `chunkReader` (src/engine/sync.ts): verified chunk reads behind a semaphore, shared by hash. A step
 * is what runs between two awaits; callers, storage answers and woken reads come in any order.
 */
module ChunkReader {
  import opened Prelude
  import opened Sums

  const MAX_READS: nat := 8

  datatype Outcome = Resolved(bytes: Bytes) | Rejected(error: int)

  /** Where a read is. After it settles, `finally` still has to take it off the map. */
  datatype Place =
    | Waiting
    | Woken
    | Reading
    | Settled(outcome: Outcome)
    | Forgotten(outcome: Outcome)

  datatype Read = Read(hash: nat, place: Place)

  /** `calls` lists, in order, the reads for which `getChunk` was called. */
  datatype State = State(
    active: int, failure: Option<int>, waiting: seq<nat>, inFlight: map<nat, nat>,
    queries: seq<Read>, calls: seq<nat>)

  const START: State := State(0, None, [], map[], [], [])

  datatype Step =
    | Ask(hash: nat)                       // a caller asks for a chunk
    | Resume(k: nat)                       // a woken read runs again
    | Answer(k: nat, outcome: Outcome)     // storage answers
    | Forget(k: nat)                       // the read's `finally`

  // -------------------------------------------------------------------- the code

  function Move(queries: seq<Read>, k: nat, place: Place): seq<Read>
    requires k < |queries|
  {
    queries[k := queries[k].(place := place)]
  }

  /** `waiting.shift()?.()` */
  function Shift(s: State): State {
    if s.waiting == [] || s.waiting[0] >= |s.queries| then s
    else s.(waiting := s.waiting[1..], queries := Move(s.queries, s.waiting[0], Woken))
  }

  /** The top of `run`: wait, refuse after a failure, or call storage. */
  function Enter(s: State, k: nat): State
    requires k < |s.queries|
  {
    if s.active >= MAX_READS then s.(waiting := s.waiting + [k], queries := Move(s.queries, k, Waiting))
    else if s.failure.Some? then Shift(s.(queries := Move(s.queries, k, Settled(Rejected(s.failure.value)))))
    else s.(active := s.active + 1, queries := Move(s.queries, k, Reading), calls := s.calls + [k])
  }

  predicate Enabled(s: State, e: Step) {
    match e
    case Ask(_) => true
    case Resume(k) => k < |s.queries| && s.queries[k].place.Woken?
    case Answer(k, _) => k < |s.queries| && s.queries[k].place.Reading?
    case Forget(k) => k < |s.queries| && s.queries[k].place.Settled?
  }

  function AskStep(s: State, hash: nat): State {
    if hash in s.inFlight then s
    else
      var k := |s.queries|;
      var t := Enter(s.(queries := s.queries + [Read(hash, Woken)]), k);
      t.(inFlight := t.inFlight[hash := k])
  }

  /** Storage has answered; nobody has been woken yet. */
  function Answered(s: State, k: nat, outcome: Outcome): State
    requires k < |s.queries|
  {
    s.(active := s.active - 1,
       failure := if outcome.Rejected? && s.failure.None? then Some(outcome.error) else s.failure,
       queries := Move(s.queries, k, Settled(outcome)))
  }

  function AnswerStep(s: State, k: nat, outcome: Outcome): State
    requires k < |s.queries|
  {
    Shift(Answered(s, k, outcome))
  }

  function ForgetStep(s: State, k: nat): State
    requires k < |s.queries| && s.queries[k].place.Settled?
  {
    s.(inFlight := s.inFlight - {s.queries[k].hash},
       queries := Move(s.queries, k, Forgotten(s.queries[k].place.outcome)))
  }

  function Next(s: State, e: Step): State
    requires Enabled(s, e)
  {
    match e
    case Ask(hash) => AskStep(s, hash)
    case Resume(k) => Enter(s, k)
    case Answer(k, outcome) => AnswerStep(s, k, outcome)
    case Forget(k) => ForgetStep(s, k)
  }

  function After(run: seq<Step>): State {
    if run == [] then START
    else
      var before := After(run[..|run| - 1]);
      if Enabled(before, run[|run| - 1]) then Next(before, run[|run| - 1]) else before
  }

  // ------------------------------------------------------------------- invariant

  function IsReading(r: Read): nat {
    if r.place.Reading? then 1 else 0
  }

  function IsWoken(r: Read): nat {
    if r.place.Woken? then 1 else 0
  }

  const READING: Read -> int := (r: Read) => IsReading(r) as int
  const WOKEN: Read -> int := (r: Read) => IsWoken(r) as int

  /** The counter is right, the limit holds, and whoever waits has somebody to wake it. */
  predicate Counted(s: State) {
    && s.active == Sum(READING, s.queries) && s.active <= MAX_READS
    && (s.waiting != [] ==> s.active + Sum(WOKEN, s.queries) >= MAX_READS)
  }

  /** The queue is the waiting reads, each once. */
  predicate Queued(s: State) {
    && (forall j :: 0 <= j < |s.waiting| ==> s.waiting[j] < |s.queries| && s.queries[s.waiting[j]].place.Waiting?)
    && (forall j, k :: 0 <= j < k < |s.waiting| ==> s.waiting[j] != s.waiting[k])
    && (forall k :: 0 <= k < |s.queries| && s.queries[k].place.Waiting? ==> k in s.waiting)
  }

  /** The map holds the one read of each hash that is not yet forgotten. */
  predicate Mapped(s: State) {
    && (forall k :: 0 <= k < |s.queries| && !s.queries[k].place.Forgotten? ==>
          s.queries[k].hash in s.inFlight && s.inFlight[s.queries[k].hash] == k)
    && (forall h <- s.inFlight :: s.inFlight[h] < |s.queries| && s.queries[s.inFlight[h]].hash == h
          && !s.queries[s.inFlight[h]].place.Forgotten?)
  }

  predicate Ended(r: Read) {
    r.place.Settled? || r.place.Forgotten?
  }

  /** A read that never reached storage can only end with the reader's failure. */
  predicate Honest(s: State) {
    && (forall k :: 0 <= k < |s.queries| && s.queries[k].place.Reading? ==> k in s.calls)
    && (forall k :: 0 <= k < |s.queries| && Ended(s.queries[k]) && k !in s.calls ==>
          s.failure.Some? && s.queries[k].place.outcome == Rejected(s.failure.value))
    && (forall k :: 0 <= k < |s.queries| && Ended(s.queries[k]) && s.queries[k].place.outcome.Rejected? ==>
          s.failure.Some?)
    && (forall k :: 0 <= k < |s.queries| && (s.queries[k].place.Waiting? || s.queries[k].place.Woken?) ==>
          k !in s.calls)
    && (forall j :: 0 <= j < |s.calls| ==> s.calls[j] < |s.queries|)
    && (forall j, k :: 0 <= j < k < |s.calls| ==> s.calls[j] != s.calls[k])
  }

  predicate Sound(s: State) {
    Counted(s) && Queued(s) && Mapped(s) && Honest(s)
  }

  lemma MoveSums(queries: seq<Read>, k: nat, place: Place)
    requires k < |queries|
    ensures Sum(READING, Move(queries, k, place)) ==
            Sum(READING, queries) - IsReading(queries[k]) + if place.Reading? then 1 else 0
    ensures Sum(WOKEN, Move(queries, k, place)) ==
            Sum(WOKEN, queries) - IsWoken(queries[k]) + if place.Woken? then 1 else 0
  {
    SumUpdate(READING, queries, k, queries[k].(place := place));
    SumUpdate(WOKEN, queries, k, queries[k].(place := place));
  }

  lemma ShiftSums(s: State)
    requires Queued(s)
    ensures Sum(READING, Shift(s).queries) == Sum(READING, s.queries)
    ensures Sum(WOKEN, Shift(s).queries) == Sum(WOKEN, s.queries) + if s.waiting == [] then 0 else 1
  {
    if s.waiting != [] {
      MoveSums(s.queries, s.waiting[0], Woken);
    }
  }

  lemma ShiftKeepsQueue(s: State)
    requires Queued(s)
    ensures Queued(Shift(s))
  {
    var t := Shift(s);
    forall k | 0 <= k < |t.queries| && t.queries[k].place.Waiting? ensures k in t.waiting {
      assert k in s.waiting;
    }
  }

  lemma ShiftKeepsHonest(s: State)
    requires Queued(s) && Honest(s)
    ensures Honest(Shift(s))
  {
  }

  lemma ShiftKeepsMap(s: State)
    requires Mapped(s) && Queued(s)
    ensures Mapped(Shift(s))
  {
  }

  // ----------------------------------------------------------- entering the reader

  /** What a read about to enter looks like: woken, not queued, not yet called. */
  predicate Entering(s: State, k: nat) {
    k < |s.queries| && s.queries[k].place.Woken?
  }

  lemma EnterKeepsCount(s: State, k: nat)
    requires Entering(s, k) && Queued(s) && s.active == Sum(READING, s.queries) && s.active <= MAX_READS
    requires s.waiting != [] ==> s.active + Sum(WOKEN, s.queries) >= MAX_READS
    ensures Counted(Enter(s, k))
  {
    MoveSums(s.queries, k, Enter(s, k).queries[k].place);
    if s.active < MAX_READS && s.failure.Some? {
      var t := s.(queries := Move(s.queries, k, Settled(Rejected(s.failure.value))));
      MoveSums(s.queries, k, Settled(Rejected(s.failure.value)));
      MoveKeepsQueue(s, k, Settled(Rejected(s.failure.value)));
      ShiftSums(t);
    } else if s.active >= MAX_READS {
      SumBoundBelow(WOKEN, Move(s.queries, k, Waiting));
    } else {
      MoveSums(s.queries, k, Reading);
    }
  }

  lemma MoveKeepsQueue(s: State, k: nat, place: Place)
    requires Queued(s) && k < |s.queries| && !s.queries[k].place.Waiting? && !place.Waiting?
    ensures Queued(s.(queries := Move(s.queries, k, place)))
  {
  }

  lemma MoveKeepsMap(s: State, k: nat, place: Place)
    requires Mapped(s) && k < |s.queries| && !s.queries[k].place.Forgotten? && !place.Forgotten?
    ensures Mapped(s.(queries := Move(s.queries, k, place)))
  {
  }

  lemma EnterKeepsQueue(s: State, k: nat)
    requires Entering(s, k) && Queued(s)
    ensures Queued(Enter(s, k))
  {
    if s.active >= MAX_READS {
      var t := Enter(s, k);
      forall j | 0 <= j < |t.queries| && t.queries[j].place.Waiting? ensures j in t.waiting {
        if j == k { assert t.waiting[|s.waiting|] == k; } else { assert j in s.waiting; }
      }
    } else if s.failure.Some? {
      MoveKeepsQueue(s, k, Settled(Rejected(s.failure.value)));
      ShiftKeepsQueue(s.(queries := Move(s.queries, k, Settled(Rejected(s.failure.value)))));
    } else {
      MoveKeepsQueue(s, k, Reading);
    }
  }

  lemma EnterKeepsMap(s: State, k: nat)
    requires Entering(s, k) && Queued(s) && Mapped(s)
    ensures Mapped(Enter(s, k))
  {
    if s.active >= MAX_READS {
      MoveKeepsMap(s, k, Waiting);
    } else if s.failure.Some? {
      MoveKeepsMap(s, k, Settled(Rejected(s.failure.value)));
      MoveKeepsQueue(s, k, Settled(Rejected(s.failure.value)));
      ShiftKeepsMap(s.(queries := Move(s.queries, k, Settled(Rejected(s.failure.value)))));
    } else {
      MoveKeepsMap(s, k, Reading);
    }
  }

  lemma EnterKeepsHonest(s: State, k: nat)
    requires Entering(s, k) && Queued(s) && Honest(s)
    ensures Honest(Enter(s, k))
  {
    if s.active >= MAX_READS {
    } else if s.failure.Some? {
      var t := s.(queries := Move(s.queries, k, Settled(Rejected(s.failure.value))));
      MoveKeepsQueue(s, k, Settled(Rejected(s.failure.value)));
      ShiftKeepsHonest(t);
    } else {
      var t := Enter(s, k);
      assert t.calls[|s.calls|] == k;
    }
  }

  // ------------------------------------------------------------- every step is sound

  lemma ResumeIsSound(s: State, k: nat)
    requires Sound(s) && Entering(s, k)
    ensures Sound(Enter(s, k))
  {
    EnterKeepsCount(s, k);
    EnterKeepsQueue(s, k);
    EnterKeepsMap(s, k);
    EnterKeepsHonest(s, k);
  }

  /** The state in which a new read of `hash` enters, once it is on the map. */
  function Asked(s: State, hash: nat): State {
    s.(queries := s.queries + [Read(hash, Woken)], inFlight := s.inFlight[hash := |s.queries|])
  }

  lemma AskedSums(s: State, hash: nat)
    ensures Sum(READING, Asked(s, hash).queries) == Sum(READING, s.queries)
    ensures Sum(WOKEN, Asked(s, hash).queries) == Sum(WOKEN, s.queries) + 1
  {
    assert Asked(s, hash).queries[..|s.queries|] == s.queries;
  }

  lemma AskedIsMapped(s: State, hash: nat)
    requires Mapped(s) && hash !in s.inFlight
    ensures Mapped(Asked(s, hash))
  {
  }

  lemma AskedIsHonest(s: State, hash: nat)
    requires Honest(s) && Queued(s)
    ensures Honest(Asked(s, hash)) && Queued(Asked(s, hash))
  {
  }

  lemma AskIsSound(s: State, hash: nat)
    requires Sound(s)
    ensures Sound(AskStep(s, hash))
  {
    if hash !in s.inFlight {
      var t := Asked(s, hash);
      AskedSums(s, hash);
      AskedIsMapped(s, hash);
      AskedIsHonest(s, hash);
      AskEnters(s, hash);
      ResumeIsSound(t, |s.queries|);
    }
  }

  /** Putting the read on the map before or after its first step makes no difference. */
  lemma AskEnters(s: State, hash: nat)
    requires hash !in s.inFlight
    ensures AskStep(s, hash) == Enter(Asked(s, hash), |s.queries|)
  {
  }

  lemma AnswerIsSound(s: State, k: nat, outcome: Outcome)
    requires Sound(s) && k < |s.queries| && s.queries[k].place.Reading?
    ensures Sound(AnswerStep(s, k, outcome))
  {
    AnsweredIsOrderly(s, k, outcome);
    AnswerKeepsCount(s, k, outcome);
    ShiftKeepsQueue(Answered(s, k, outcome));
    ShiftKeepsMap(Answered(s, k, outcome));
    ShiftKeepsHonest(Answered(s, k, outcome));
  }

  lemma AnswerKeepsCount(s: State, k: nat, outcome: Outcome)
    requires Counted(s) && Queued(s) && k < |s.queries| && s.queries[k].place.Reading?
    ensures Counted(AnswerStep(s, k, outcome))
  {
    MoveSums(s.queries, k, Settled(outcome));
    MoveKeepsQueue(s, k, Settled(outcome));
    AnsweredIsQueued(s, k, outcome);
    ShiftSums(Answered(s, k, outcome));
  }

  lemma AnsweredIsQueued(s: State, k: nat, outcome: Outcome)
    requires Queued(s) && k < |s.queries| && s.queries[k].place.Reading?
    ensures Queued(Answered(s, k, outcome))
  {
    MoveKeepsQueue(s, k, Settled(outcome));
  }

  lemma AnsweredIsOrderly(s: State, k: nat, outcome: Outcome)
    requires Queued(s) && Mapped(s) && Honest(s) && k < |s.queries| && s.queries[k].place.Reading?
    ensures Queued(Answered(s, k, outcome)) && Mapped(Answered(s, k, outcome)) && Honest(Answered(s, k, outcome))
  {
    AnsweredIsQueued(s, k, outcome);
    MoveKeepsMap(s, k, Settled(outcome));
    AnswerKeepsHonest(s, Answered(s, k, outcome), k, outcome);
  }

  lemma AnswerKeepsHonest(s: State, t: State, k: nat, outcome: Outcome)
    requires Honest(s) && k < |s.queries| && s.queries[k].place.Reading?
    requires t.queries == Move(s.queries, k, Settled(outcome)) && t.calls == s.calls
    requires t.failure == if outcome.Rejected? && s.failure.None? then Some(outcome.error) else s.failure
    ensures Honest(t)
  {
  }

  lemma ForgetIsSound(s: State, k: nat)
    requires Sound(s) && k < |s.queries| && s.queries[k].place.Settled?
    ensures Sound(ForgetStep(s, k))
  {
    MoveSums(s.queries, k, Forgotten(s.queries[k].place.outcome));
    MoveKeepsQueue(s, k, Forgotten(s.queries[k].place.outcome));
    ForgetKeepsMap(s, k);
    ForgetKeepsHonest(s, k);
  }

  lemma ForgetKeepsMap(s: State, k: nat)
    requires Mapped(s) && k < |s.queries| && s.queries[k].place.Settled?
    ensures Mapped(ForgetStep(s, k))
  {
  }

  lemma ForgetKeepsHonest(s: State, k: nat)
    requires Honest(s) && k < |s.queries| && s.queries[k].place.Settled?
    ensures Honest(ForgetStep(s, k))
  {
  }

  lemma NextIsSound(s: State, e: Step)
    requires Sound(s) && Enabled(s, e)
    ensures Sound(Next(s, e))
  {
    match e
    case Ask(hash) => AskIsSound(s, hash);
    case Resume(k) => ResumeIsSound(s, k);
    case Answer(k, outcome) => AnswerIsSound(s, k, outcome);
    case Forget(k) => ForgetIsSound(s, k);
  }

  lemma {:induction false} RunIsSound(run: seq<Step>)
    ensures Sound(After(run))
  {
    if run != [] {
      RunIsSound(run[..|run| - 1]);
      if Enabled(After(run[..|run| - 1]), run[|run| - 1]) {
        NextIsSound(After(run[..|run| - 1]), run[|run| - 1]);
      }
    }
  }

  // --------------------------------------------------------------------- results

  /** At most eight reads are in storage, no two of them for one hash, and none is called twice. */
  lemma BoundedAndSingleFlight(run: seq<Step>)
    ensures var s := After(run);
            Sum(READING, s.queries) <= MAX_READS
            && (forall j, k ::
                  0 <= j < k < |s.queries| && s.queries[j].place.Reading? && s.queries[k].place.Reading? ==>
                    s.queries[j].hash != s.queries[k].hash)
            && (forall j, k :: 0 <= j < k < |s.calls| ==> s.calls[j] != s.calls[k])
  {
    RunIsSound(run);
  }

  lemma {:induction false} FindCounted(f: Read -> int, queries: seq<Read>) returns (k: nat)
    requires Sum(f, queries) > 0
    ensures k < |queries| && f(queries[k]) > 0
  {
    var n := |queries| - 1;
    if f(queries[n]) > 0 {
      k := n;
    } else {
      k := FindCounted(f, queries[..n]);
    }
  }

  /** No lost wakeup: a waiting read always has a read in storage, or one already woken, to wake it. */
  lemma WaitersHaveAWaker(run: seq<Step>, k: nat)
    requires k < |After(run).queries| && After(run).queries[k].place.Waiting?
    ensures exists j :: 0 <= j < |After(run).queries|
                        && (After(run).queries[j].place.Reading? || After(run).queries[j].place.Woken?)
  {
    RunIsSound(run);
    var s := After(run);
    assert k in s.waiting;
    if Sum(READING, s.queries) > 0 {
      var j := FindCounted(READING, s.queries);
    } else {
      var j := FindCounted(WOKEN, s.queries);
    }
  }

  lemma ShiftKeepsCalls(s: State)
    ensures Shift(s).calls == s.calls && Shift(s).failure == s.failure
  {
  }

  lemma EnterStartsNothing(s: State, k: nat)
    requires k < |s.queries| && s.failure.Some?
    ensures Enter(s, k).calls == s.calls && Enter(s, k).failure == s.failure
  {
  }

  lemma NextStartsNothing(s: State, e: Step)
    requires Enabled(s, e) && s.failure.Some?
    ensures Next(s, e).calls == s.calls && Next(s, e).failure == s.failure
  {
    match e
    case Ask(hash) =>
      if hash !in s.inFlight { EnterStartsNothing(s.(queries := s.queries + [Read(hash, Woken)]), |s.queries|); }
    case Resume(k) => EnterStartsNothing(s, k);
    case Answer(k, outcome) =>
      ShiftKeepsCalls(Answered(s, k, outcome));
    case Forget(k) =>
  }

  /** After a read has failed no `getChunk` starts, and the failure is the one every later read gets. */
  lemma {:induction false} NoReadAfterAFailure(run: seq<Step>, more: seq<Step>)
    requires After(run).failure.Some?
    ensures After(run + more).calls == After(run).calls && After(run + more).failure == After(run).failure
  {
    if more == [] {
      assert run + more == run;
    } else {
      NoReadAfterAFailure(run, more[..|more| - 1]);
      assert (run + more)[..|run + more| - 1] == run + more[..|more| - 1];
      var before := After(run + more[..|more| - 1]);
      if Enabled(before, more[|more| - 1]) {
        NextStartsNothing(before, more[|more| - 1]);
      }
    }
  }

  /** A read that was refused unread got exactly the first failure. */
  lemma QueuedReadsGetTheFailure(run: seq<Step>, k: nat)
    requires k < |After(run).queries| && Ended(After(run).queries[k]) && k !in After(run).calls
    ensures After(run).failure.Some?
    ensures After(run).queries[k].place.outcome == Rejected(After(run).failure.value)
  {
    RunIsSound(run);
  }

  /** The first error storage answered with. */
  function FirstFailure(run: seq<Step>): Option<int> {
    if run == [] then None
    else
      var front, e := run[..|run| - 1], run[|run| - 1];
      if FirstFailure(front).None? && e.Answer? && e.outcome.Rejected? && Enabled(After(front), e)
      then Some(e.outcome.error) else FirstFailure(front)
  }

  lemma EnterKeepsFailure(s: State, k: nat)
    requires k < |s.queries|
    ensures Enter(s, k).failure == s.failure
  {
  }

  /** The reader fails exactly if storage has answered some read with an error, and with the first of them. */
  lemma {:induction false} FailsWithTheFirstError(run: seq<Step>)
    ensures After(run).failure == FirstFailure(run)
  {
    if run != [] {
      var front, e := run[..|run| - 1], run[|run| - 1];
      FailsWithTheFirstError(front);
      if Enabled(After(front), e) {
        match e
        case Ask(hash) =>
          var s := After(front);
          if hash !in s.inFlight { EnterKeepsFailure(s.(queries := s.queries + [Read(hash, Woken)]), |s.queries|); }
        case Resume(k) => EnterKeepsFailure(After(front), k);
        case Answer(k, outcome) => ShiftKeepsCalls(Answered(After(front), k, outcome));
        case Forget(k) =>
      }
    }
  }

  /** Whether storage answered read `k` with `outcome`. */
  predicate WasAnswered(run: seq<Step>, k: nat, outcome: Outcome) {
    run != [] && (
      var front, e := run[..|run| - 1], run[|run| - 1];
      WasAnswered(front, k, outcome) || (e == Answer(k, outcome) && Enabled(After(front), e)))
  }

  predicate OutcomeOk(s: State, run: seq<Step>, k: nat)
    requires k < |s.queries|
  {
    Ended(s.queries[k]) ==>
      || WasAnswered(run, k, s.queries[k].place.outcome)
      || (s.failure.Some? && s.queries[k].place.outcome == Rejected(s.failure.value))
  }

  lemma ShiftEnds(s: State, k: nat)
    requires Queued(s) && k < |s.queries|
    ensures k < |Shift(s).queries| && (Ended(Shift(s).queries[k]) <==> Ended(s.queries[k]))
    ensures Ended(s.queries[k]) ==> Shift(s).queries[k] == s.queries[k]
  {
  }

  /** What one step lets a read end with. */
  predicate EndsWith(s: State, t: State, e: Step, k: nat)
    requires k < |t.queries| && Ended(t.queries[k])
  {
    var outcome := t.queries[k].place.outcome;
    || (k < |s.queries| && Ended(s.queries[k]) && s.queries[k].place.outcome == outcome)
    || e == Answer(k, outcome)
    || (s.failure.Some? && outcome == Rejected(s.failure.value))
  }

  lemma AskEnds(s: State, hash: nat, k: nat)
    requires Queued(s) && k < |AskStep(s, hash).queries| && Ended(AskStep(s, hash).queries[k])
    ensures EndsWith(s, AskStep(s, hash), Ask(hash), k)
  {
    if hash !in s.inFlight {
      var t := s.(queries := s.queries + [Read(hash, Woken)]);
      assert |Enter(t, |s.queries|).queries| == |t.queries|;
      EnterEnds(t, |s.queries|, k);
    }
  }

  lemma NextEnds(s: State, e: Step, k: nat)
    requires Sound(s) && Enabled(s, e) && k < |Next(s, e).queries| && Ended(Next(s, e).queries[k])
    ensures EndsWith(s, Next(s, e), e, k)
  {
    match e
    case Ask(hash) => AskEnds(s, hash, k);
    case Resume(j) => EnterEnds(s, j, k);
    case Answer(j, outcome) => AnswerEnds(s, j, outcome, k);
    case Forget(j) =>
  }

  lemma EnterEnds(s: State, j: nat, k: nat)
    requires Queued(s) && j < |s.queries| && s.queries[j].place.Woken? && k < |s.queries|
    ensures k < |Enter(s, j).queries|
    ensures Ended(Enter(s, j).queries[k]) ==>
              || (Ended(s.queries[k]) && Enter(s, j).queries[k].place.outcome == s.queries[k].place.outcome)
              || (s.failure.Some? && Enter(s, j).queries[k].place.outcome == Rejected(s.failure.value))
  {
    if s.active < MAX_READS && s.failure.Some? {
      var t := s.(queries := Move(s.queries, j, Settled(Rejected(s.failure.value))));
      ShiftEnds(t, k);
    }
  }

  lemma AnswerEnds(s: State, j: nat, outcome: Outcome, k: nat)
    requires Queued(s) && j < |s.queries| && s.queries[j].place.Reading? && k < |s.queries|
    ensures k < |AnswerStep(s, j, outcome).queries|
    ensures Ended(AnswerStep(s, j, outcome).queries[k]) ==>
              || (Ended(s.queries[k])
                  && AnswerStep(s, j, outcome).queries[k].place.outcome == s.queries[k].place.outcome)
              || (k == j && AnswerStep(s, j, outcome).queries[k].place.outcome == outcome)
  {
    ShiftEnds(Answered(s, j, outcome), k);
  }

  /** A read ends with what storage answered it, or with the reader's failure. */
  lemma {:induction false} ReadsEndAsAnswered(run: seq<Step>)
    ensures forall k :: 0 <= k < |After(run).queries| ==> OutcomeOk(After(run), run, k)
  {
    if run != [] {
      var front, e := run[..|run| - 1], run[|run| - 1];
      ReadsEndAsAnswered(front);
      RunIsSound(front);
      var s, t := After(front), After(run);
      forall k | 0 <= k < |t.queries| && Ended(t.queries[k]) ensures OutcomeOk(t, run, k) {
        if Enabled(s, e) {
          NextEnds(s, e, k);
          if s.failure.Some? { NextStartsNothing(s, e); }
          if k < |s.queries| { assert OutcomeOk(s, front, k); }
        } else {
          assert OutcomeOk(s, front, k);
        }
      }
    }
  }

  /** So while storage fails no read, every read that has ended has what storage answered it. */
  lemma GoodAnswersAreGiven(run: seq<Step>, k: nat)
    requires FirstFailure(run).None? && k < |After(run).queries| && Ended(After(run).queries[k])
    ensures WasAnswered(run, k, After(run).queries[k].place.outcome)
  {
    FailsWithTheFirstError(run);
    ReadsEndAsAnswered(run);
  }

  // ----------------------------------------------------------------- termination

  const WEIGHT: Read -> int := (r: Read) => PlaceWeight(r.place) as int

  function PlaceWeight(place: Place): nat {
    match place
    case Forgotten(_) => 0
    case Settled(_) => 1
    case Reading => 3
    case Waiting => 4
    case Woken => 5
  }

  lemma MoveWeight(queries: seq<Read>, k: nat, place: Place)
    requires k < |queries|
    ensures Sum(WEIGHT, Move(queries, k, place)) ==
            Sum(WEIGHT, queries) - PlaceWeight(queries[k].place) + PlaceWeight(place)
  {
    SumUpdate(WEIGHT, queries, k, queries[k].(place := place));
  }

  lemma ShiftWeight(s: State)
    requires Queued(s)
    ensures Sum(WEIGHT, Shift(s).queries) <= Sum(WEIGHT, s.queries) + 1
  {
    if s.waiting != [] {
      MoveWeight(s.queries, s.waiting[0], Woken);
    }
  }

  lemma EnterGetsCloser(s: State, k: nat)
    requires Entering(s, k) && Queued(s)
    ensures Sum(WEIGHT, Enter(s, k).queries) < Sum(WEIGHT, s.queries)
  {
    if s.active >= MAX_READS {
      MoveWeight(s.queries, k, Waiting);
    } else if s.failure.Some? {
      var place := Settled(Rejected(s.failure.value));
      MoveWeight(s.queries, k, place);
      MoveKeepsQueue(s, k, place);
      ShiftWeight(s.(queries := Move(s.queries, k, place)));
    } else {
      MoveWeight(s.queries, k, Reading);
    }
  }

  lemma AnswerGetsCloser(s: State, k: nat, outcome: Outcome)
    requires Queued(s) && k < |s.queries| && s.queries[k].place.Reading?
    ensures Sum(WEIGHT, AnswerStep(s, k, outcome).queries) < Sum(WEIGHT, s.queries)
  {
    MoveWeight(s.queries, k, Settled(outcome));
    AnsweredIsQueued(s, k, outcome);
    ShiftWeight(Answered(s, k, outcome));
  }

  lemma AskAddsFour(s: State, hash: nat)
    requires Queued(s) && hash !in s.inFlight
    ensures Sum(WEIGHT, AskStep(s, hash).queries) <= Sum(WEIGHT, s.queries) + 4
  {
    var t := Asked(s, hash);
    assert t.queries[..|s.queries|] == s.queries;
    assert Queued(t);
    AskEnters(s, hash);
    EnterGetsCloser(t, |s.queries|);
  }

  lemma NextGetsCloser(s: State, e: Step)
    requires Queued(s) && Enabled(s, e)
    ensures Sum(WEIGHT, Next(s, e).queries) <= Sum(WEIGHT, s.queries) + if e.Ask? then 4 else -1
  {
    match e
    case Ask(hash) =>
      if hash !in s.inFlight { AskAddsFour(s, hash); }
    case Resume(k) => EnterGetsCloser(s, k);
    case Answer(k, outcome) => AnswerGetsCloser(s, k, outcome);
    case Forget(k) => MoveWeight(s.queries, k, Forgotten(s.queries[k].place.outcome));
  }

  predicate IsRun(run: seq<Step>) {
    run == [] || (IsRun(run[..|run| - 1]) && Enabled(After(run[..|run| - 1]), run[|run| - 1]))
  }

  function Asks(run: seq<Step>): nat {
    if run == [] then 0 else Asks(run[..|run| - 1]) + if run[|run| - 1].Ask? then 1 else 0
  }

  lemma {:induction false} StepsAreBounded(run: seq<Step>)
    requires IsRun(run)
    ensures |run| - Asks(run) + Sum(WEIGHT, After(run).queries) <= 4 * Asks(run)
  {
    if run != [] {
      StepsAreBounded(run[..|run| - 1]);
      RunIsSound(run[..|run| - 1]);
      NextGetsCloser(After(run[..|run| - 1]), run[|run| - 1]);
    }
  }

  /**
   * Every read settles: between them `n` requests take at most four further steps each, and until all
   * of them are settled and forgotten some step other than a new request is possible.
   */
  lemma EveryReadSettles(run: seq<Step>)
    requires IsRun(run)
    ensures |run| <= 5 * Asks(run)
    ensures (forall k :: 0 <= k < |After(run).queries| ==> After(run).queries[k].place.Forgotten?)
            || exists e: Step :: !e.Ask? && Enabled(After(run), e)
  {
    var s := After(run);
    StepsAreBounded(run);
    SumBoundBelow(WEIGHT, s.queries);
    if k :| 0 <= k < |s.queries| && !s.queries[k].place.Forgotten? {
      var j := k;
      if s.queries[k].place.Waiting? {
        WaitersHaveAWaker(run, k);
        j :| 0 <= j < |s.queries| && (s.queries[j].place.Reading? || s.queries[j].place.Woken?);
      }
      match s.queries[j].place
      case Woken => assert Enabled(s, Resume(j));
      case Reading => assert Enabled(s, Answer(j, Rejected(0)));
      case Settled(_) => assert Enabled(s, Forget(j));
    }
  }
}
