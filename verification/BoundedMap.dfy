/**
 * `mapBounded` (src/engine/sync.ts): a fixed set of workers takes items off a shared index. Every
 * await is a point where another worker may run.
 */
module BoundedMap {
  import opened Prelude
  import opened Sums

  /** How one call of the operation settles. */
  datatype Answer = Resolved(value: Bytes) | Rejected(error: int)

  datatype Worker = AtTop | Calling(i: nat) | Exited

  datatype State = State(
    next: nat, failure: Option<int>, workers: seq<Worker>, results: seq<Option<Bytes>>,
    calls: seq<nat>, answers: seq<Option<Answer>>, settled: seq<Answer>)

  datatype Step = Top(w: nat) | Settle(w: nat, answer: Answer)

  function Start(items: nat, limit: nat): State {
    State(0, None, seq(Min(limit, items), _ => AtTop), seq(items, _ => None), [], seq(items, _ => None), [])
  }

  predicate Enabled(s: State, e: Step) {
    e.w < |s.workers|
    && if e.Top? then s.workers[e.w].AtTop?
       else s.workers[e.w].Calling? && s.workers[e.w].i < |s.answers| && s.workers[e.w].i < |s.results|
  }

  function TopStep(s: State, w: nat): State
    requires w < |s.workers|
  {
    if s.failure.None? && s.next < |s.results| then
      s.(next := s.next + 1, workers := s.workers[w := Calling(s.next)], calls := s.calls + [s.next])
    else s.(workers := s.workers[w := Exited])
  }

  function SettleStep(s: State, w: nat, answer: Answer): State
    requires Enabled(s, Settle(w, answer))
  {
    var i := s.workers[w].i;
    s.(workers := s.workers[w := AtTop],
       results := if answer.Resolved? then s.results[i := Some(answer.value)] else s.results,
       failure := if answer.Rejected? && s.failure.None? then Some(answer.error) else s.failure,
       answers := s.answers[i := Some(answer)],
       settled := s.settled + [answer])
  }

  function Next(s: State, e: Step): State
    requires Enabled(s, e)
  {
    match e
    case Top(w) => TopStep(s, w)
    case Settle(w, answer) => SettleStep(s, w, answer)
  }

  /** A run from `s`; a step that is not enabled does not happen. */
  function After(s: State, run: seq<Step>): State {
    if run == [] then s
    else
      var before := After(s, run[..|run| - 1]);
      if Enabled(before, run[|run| - 1]) then Next(before, run[|run| - 1]) else before
  }

  predicate IsRun(s: State, run: seq<Step>) {
    run == [] || (IsRun(s, run[..|run| - 1]) && Enabled(After(s, run[..|run| - 1]), run[|run| - 1]))
  }

  /** The first rejection, in the order the calls settled. */
  function FirstError(settled: seq<Answer>): Option<int> {
    if settled == [] then None
    else
      var earlier := FirstError(settled[..|settled| - 1]);
      var last := settled[|settled| - 1];
      if earlier.None? && last.Rejected? then Some(last.error) else earlier
  }

  // ------------------------------------------------------------------- invariant

  predicate WorkerOk(s: State, x: Worker) {
    && (x.Calling? ==> x.i < s.next && x.i < |s.answers| && s.answers[x.i].None?)
    && (x.Exited? ==> s.failure.Some? || s.next >= |s.answers|)
  }

  predicate WorkersOk(s: State) {
    && (forall w :: 0 <= w < |s.workers| ==> WorkerOk(s, s.workers[w]))
    && (forall v, w :: 0 <= v < |s.workers| && 0 <= w < |s.workers| && v != w
                       && s.workers[v].Calling? && s.workers[w].Calling?
                       ==> s.workers[v].i != s.workers[w].i)
  }

  predicate BeingCalled(s: State, i: nat) {
    exists w :: 0 <= w < |s.workers| && s.workers[w] == Calling(i)
  }

  predicate AnswersOk(s: State) {
    && |s.results| == |s.answers|
    && (forall i :: 0 <= i < |s.answers| && i < s.next && s.answers[i].None? ==> BeingCalled(s, i))
    && (forall i :: 0 <= i < |s.answers| && s.next <= i ==> s.answers[i].None?)
    && (forall i :: 0 <= i < |s.answers| ==>
          s.results[i] ==
            if s.answers[i].Some? && s.answers[i].value.Resolved? then Some(s.answers[i].value.value) else None)
    && (forall i :: 0 <= i < |s.answers| && s.answers[i].Some? && s.answers[i].value.Rejected? ==> s.failure.Some?)
    && (s.failure.Some? ==> exists i :: 0 <= i < |s.answers| && s.answers[i].Some? && s.answers[i].value.Rejected?)
  }

  predicate Sound(s: State) {
    && s.next <= |s.answers|
    && |s.calls| == s.next && (forall k :: 0 <= k < |s.calls| ==> s.calls[k] == k)
    && s.failure == FirstError(s.settled)
    && WorkersOk(s) && AnswersOk(s)
  }

  lemma CallIsSound(s: State, w: nat)
    requires Sound(s) && w < |s.workers| && s.workers[w].AtTop? && s.failure.None? && s.next < |s.results|
    ensures Sound(TopStep(s, w))
  {
    var t := TopStep(s, w);
    forall i | 0 <= i < |t.answers| && i < t.next && t.answers[i].None? ensures BeingCalled(t, i) {
      if i == s.next {
        assert t.workers[w] == Calling(i);
      } else {
        assert BeingCalled(s, i);
        var v :| 0 <= v < |s.workers| && s.workers[v] == Calling(i);
        assert t.workers[v] == Calling(i);
      }
    }
    forall v | 0 <= v < |t.workers| ensures WorkerOk(t, t.workers[v]) {
      assert WorkerOk(s, s.workers[v]);
    }
  }

  lemma ExitIsSound(s: State, w: nat)
    requires Sound(s) && w < |s.workers| && s.workers[w].AtTop? && (s.failure.Some? || s.next >= |s.results|)
    ensures Sound(TopStep(s, w))
  {
    var t := TopStep(s, w);
    forall i | 0 <= i < |t.answers| && i < t.next && t.answers[i].None? ensures BeingCalled(t, i) {
      assert BeingCalled(s, i);
      var v :| 0 <= v < |s.workers| && s.workers[v] == Calling(i);
      assert t.workers[v] == Calling(i);
    }
  }

  lemma SettleWorkers(s: State, w: nat, answer: Answer)
    requires Sound(s) && Enabled(s, Settle(w, answer))
    ensures WorkersOk(SettleStep(s, w, answer))
  {
    var t := SettleStep(s, w, answer);
    forall v | 0 <= v < |t.workers| ensures WorkerOk(t, t.workers[v]) {
      assert WorkerOk(s, s.workers[v]);
    }
  }

  lemma SettleAnswers(s: State, w: nat, answer: Answer)
    requires Sound(s) && Enabled(s, Settle(w, answer))
    ensures AnswersOk(SettleStep(s, w, answer))
  {
    var t, i := SettleStep(s, w, answer), s.workers[w].i;
    assert WorkerOk(s, s.workers[w]);
    forall j | 0 <= j < |t.answers| && j < t.next && t.answers[j].None? ensures BeingCalled(t, j) {
      assert BeingCalled(s, j);
      var v :| 0 <= v < |s.workers| && s.workers[v] == Calling(j);
      assert v != w && t.workers[v] == Calling(j);
    }
    if s.failure.Some? {
      var j :| 0 <= j < |s.answers| && s.answers[j].Some? && s.answers[j].value.Rejected?;
      assert t.answers[j] == s.answers[j];
    } else {
      assert t.answers[i] == Some(answer);
    }
  }

  lemma NextIsSound(s: State, e: Step)
    requires Sound(s) && Enabled(s, e)
    ensures Sound(Next(s, e)) && |Next(s, e).workers| == |s.workers| && |Next(s, e).answers| == |s.answers|
  {
    match e
    case Top(w) =>
      if s.failure.None? && s.next < |s.results| { CallIsSound(s, w); } else { ExitIsSound(s, w); }
    case Settle(w, answer) =>
      SettleWorkers(s, w, answer);
      SettleAnswers(s, w, answer);
      var t := Next(s, e);
      assert t.settled[..|t.settled| - 1] == s.settled;
  }

  lemma {:induction false} RunIsSound(items: nat, limit: nat, run: seq<Step>)
    ensures var s := After(Start(items, limit), run);
            Sound(s) && |s.workers| == Min(limit, items) && |s.answers| == items
  {
    if run != [] {
      RunIsSound(items, limit, run[..|run| - 1]);
      var before := After(Start(items, limit), run[..|run| - 1]);
      if Enabled(before, run[|run| - 1]) {
        NextIsSound(before, run[|run| - 1]);
      }
    }
  }

  // --------------------------------------------------------------------- results

  function InFlight(x: Worker): nat {
    if x.Calling? then 1 else 0
  }

  const IN_FLIGHT: Worker -> int := (x: Worker) => InFlight(x) as int

  /** At most `limit` calls are in flight, each for its own item, and items are taken in order, once. */
  lemma BoundedAndInOrder(items: nat, limit: nat, run: seq<Step>)
    ensures var s := After(Start(items, limit), run);
            Sum(IN_FLIGHT, s.workers) <= limit
            && |s.calls| <= items && (forall k :: 0 <= k < |s.calls| ==> s.calls[k] == k)
            && (forall v, w :: 0 <= v < w < |s.workers| && s.workers[v].Calling? && s.workers[w].Calling? ==>
                  s.workers[v].i != s.workers[w].i)
  {
    RunIsSound(items, limit, run);
    SumBound(IN_FLIGHT, After(Start(items, limit), run).workers, 0, 1);
  }

  predicate Done(s: State) {
    forall w :: 0 <= w < |s.workers| ==> s.workers[w].Exited?
  }

  /** By the time the map settles, every call it started has settled. */
  lemma NothingOutlivesTheMap(items: nat, limit: nat, run: seq<Step>)
    requires Done(After(Start(items, limit), run))
    ensures var s := After(Start(items, limit), run);
            forall k :: 0 <= k < |s.calls| ==> s.calls[k] < |s.answers| && s.answers[s.calls[k]].Some?
  {
    RunIsSound(items, limit, run);
    var s := After(Start(items, limit), run);
    forall k | 0 <= k < |s.calls| ensures s.answers[s.calls[k]].Some? {
      assert !BeingCalled(s, k);
    }
  }

  /** A map that is done without a failure has called every item, and every call resolved. */
  lemma DoneMeansAllResolved(s: State, limit: nat)
    requires Sound(s) && Done(s) && limit > 0 && |s.workers| == Min(limit, |s.answers|)
    ensures s.failure.None? <==>
              forall i :: 0 <= i < |s.answers| ==> s.answers[i].Some? && s.answers[i].value.Resolved?
    ensures s.failure.None? ==> forall i :: 0 <= i < |s.answers| ==> s.results[i] == Some(s.answers[i].value.value)
  {
    if s.failure.None? {
      forall i | 0 <= i < |s.answers| ensures s.answers[i].Some? {
        assert WorkerOk(s, s.workers[0]);
        assert !BeingCalled(s, i);
      }
    }
  }

  /**
   * The map resolves exactly when no call rejected, and then with each item's own value at the item's
   * place; otherwise it rejects with the first error to arrive.
   */
  lemma ResolvesInOrderOrRejectsWithTheFirst(items: nat, limit: nat, run: seq<Step>)
    requires limit > 0 && Done(After(Start(items, limit), run))
    ensures var s := After(Start(items, limit), run);
            |s.results| == items && |s.answers| == items
            && s.failure == FirstError(s.settled)
            && (s.failure.None? <==>
                  forall i :: 0 <= i < items ==> s.answers[i].Some? && s.answers[i].value.Resolved?)
            && (s.failure.None? ==> forall i :: 0 <= i < items ==>
                  s.results[i] == Some(s.answers[i].value.value))
  {
    RunIsSound(items, limit, run);
    DoneMeansAllResolved(After(Start(items, limit), run), limit);
  }

  /** Once a call has rejected, no further call is ever started. */
  lemma {:induction false} NoCallAfterAFailure(items: nat, limit: nat, run: seq<Step>, more: seq<Step>)
    requires After(Start(items, limit), run).failure.Some?
    ensures After(Start(items, limit), run + more).calls == After(Start(items, limit), run).calls
    ensures After(Start(items, limit), run + more).failure == After(Start(items, limit), run).failure
  {
    if more == [] {
      assert run + more == run;
    } else {
      NoCallAfterAFailure(items, limit, run, more[..|more| - 1]);
      assert (run + more)[..|run + more| - 1] == run + more[..|more| - 1];
    }
  }

  function Weight(x: Worker): nat {
    match x
    case Exited => 0
    case AtTop => 1
    case Calling(_) => 2
  }

  const WEIGHT: Worker -> int := (x: Worker) => Weight(x) as int

  function Left(s: State): int {
    2 * (|s.answers| - s.next) + Sum(WEIGHT, s.workers)
  }

  lemma NextGetsCloser(s: State, e: Step)
    requires Sound(s) && Enabled(s, e)
    ensures Left(Next(s, e)) < Left(s)
  {
    SumUpdate(WEIGHT, s.workers, e.w, Next(s, e).workers[e.w]);
  }

  lemma {:induction false} LeftDrops(items: nat, limit: nat, run: seq<Step>)
    requires IsRun(Start(items, limit), run)
    ensures Left(After(Start(items, limit), run)) + |run| <= 2 * items + limit
  {
    if run == [] {
      SumBound(WEIGHT, Start(items, limit).workers, 0, 1);
    } else {
      LeftDrops(items, limit, run[..|run| - 1]);
      RunIsSound(items, limit, run[..|run| - 1]);
      NextGetsCloser(After(Start(items, limit), run[..|run| - 1]), run[|run| - 1]);
    }
  }

  /** If every call settles, the map settles. */
  lemma MapTerminates(items: nat, limit: nat, run: seq<Step>)
    requires IsRun(Start(items, limit), run)
    ensures |run| <= 2 * items + limit
    ensures Done(After(Start(items, limit), run)) || exists e :: Enabled(After(Start(items, limit), run), e)
  {
    var s := After(Start(items, limit), run);
    LeftDrops(items, limit, run);
    RunIsSound(items, limit, run);
    SumBoundBelow(WEIGHT, s.workers);
    if !Done(s) {
      var w :| 0 <= w < |s.workers| && !s.workers[w].Exited?;
      assert WorkerOk(s, s.workers[w]);
      assert Enabled(s, Top(w)) || Enabled(s, Settle(w, Rejected(0)));
    }
  }

  // ------------------------------------------------------------------ what was answered

  /** The answers of the calls, in the order they settled. */
  function AnswersIn(s: State, run: seq<Step>): seq<Answer> {
    if run == [] then []
    else
      var front, e := run[..|run| - 1], run[|run| - 1];
      if e.Settle? && Enabled(After(s, front), e) then AnswersIn(s, front) + [e.answer] else AnswersIn(s, front)
  }

  /** The error a map rejects with is the first any call was rejected with. */
  lemma {:induction false} FailsWithTheFirstAnswer(items: nat, limit: nat, run: seq<Step>)
    ensures After(Start(items, limit), run).settled == AnswersIn(Start(items, limit), run)
    ensures After(Start(items, limit), run).failure == FirstError(AnswersIn(Start(items, limit), run))
  {
    if run != [] {
      FailsWithTheFirstAnswer(items, limit, run[..|run| - 1]);
      RunIsSound(items, limit, run);
    }
  }

  /** The item a worker is calling gets the answer that call settles with, and no other item does. */
  lemma AnswersReachTheirItem(items: nat, limit: nat, run: seq<Step>, w: nat, answer: Answer)
    requires Enabled(After(Start(items, limit), run), Settle(w, answer))
    ensures var s, t := After(Start(items, limit), run), After(Start(items, limit), run + [Settle(w, answer)]);
            t.answers == s.answers[s.workers[w].i := Some(answer)]
  {
    assert (run + [Settle(w, answer)])[..|run|] == run;
  }
}
