/**
 * What the database keeps (src/sql/engine.ts, src/sql/handler.ts), said from the Worker's log of messages
 * and replies alone: which statements are committed, in which groups, and which messages are refused.
 */
module SqlCommits {
  import opened Prelude
  import opened SqlEngine
  import opened SqlClient
  import opened SqlIsolation

  /** What the Worker has answered, message by message. */
  type Log = seq<(Msg, bool)>

  function Served(s: System): Log {
    if |s.replies| > |s.client.posted| then []
    else seq(|s.replies|, k requires 0 <= k < |s.replies| => (s.client.posted[k], s.replies[k]))
  }

  /** The statements of transaction `i` that were answered with success, in order. */
  function Answered(log: Log, i: nat): seq<Msg> {
    if log == [] then []
    else
      var front := Answered(log[..|log| - 1], i);
      var (m, ok) := log[|log| - 1];
      if m.Own? && m.i == i && ok then front + [m] else front
  }

  /** For each commit that was answered with success, the statements of its transaction, if there are any. */
  function Kept(log: Log): seq<seq<Msg>> {
    if log == [] then []
    else
      var before := log[..|log| - 1];
      var (m, ok) := log[|log| - 1];
      if m.Commit? && ok && Answered(before, m.i) != [] then Kept(before) + [Answered(before, m.i)] else Kept(before)
  }

  /** The same with empty transactions, and each plain call that was answered with success on its own. */
  function Commits(log: Log): seq<seq<Msg>> {
    if log == [] then []
    else
      var before := log[..|log| - 1];
      var (m, ok) := log[|log| - 1];
      if !ok then Commits(before)
      else
        match m
        case Plain(_) => Commits(before) + [[m]]
        case Commit(i) => Commits(before) + [Answered(before, i)]
        case _ => Commits(before)
  }

  /** The groups that are interactive transactions' statements. */
  function OwnGroups(committed: seq<seq<Msg>>): seq<seq<Msg>> {
    if committed == [] then []
    else
      var front, last := OwnGroups(committed[..|committed| - 1]), committed[|committed| - 1];
      if last != [] && last[0].Own? then front + [last] else front
  }

  // ---------------------------------------------------------------------- one reply more

  lemma ServedGrows(s: System, o: Outcome)
    requires |s.replies| < |s.client.posted|
    ensures var m := s.client.posted[|s.replies|];
            Served(Next(s, ServeNext(o))) == Served(s) + [(m, Serve(s.engine, m, o).1)]
  {
  }

  lemma PostsDoNotCount(s: System, e: Step)
    requires Enabled(s, e) && !e.ServeNext? && |s.replies| <= |s.client.posted|
    requires s.client.posted <= Next(s, e).client.posted
    ensures Served(Next(s, e)) == Served(s) && Next(s, e).engine == s.engine
  {
  }

  lemma LogGrows(log: Log, m: Msg, ok: bool)
    ensures forall i :: Answered(log + [(m, ok)], i) ==
                        if m.Own? && m.i == i && ok then Answered(log, i) + [m] else Answered(log, i)
    ensures Kept(log + [(m, ok)]) ==
            if m.Commit? && ok && Answered(log, m.i) != [] then Kept(log) + [Answered(log, m.i)] else Kept(log)
    ensures Commits(log + [(m, ok)]) ==
            if ok && m.Plain? then Commits(log) + [[m]]
            else if ok && m.Commit? then Commits(log) + [Answered(log, m.i)]
            else Commits(log)
  {
    assert (log + [(m, ok)])[..|log|] == log;
  }

  lemma GroupsGrow(committed: seq<seq<Msg>>, g: seq<Msg>)
    ensures OwnGroups(committed + [g]) ==
            if g != [] && g[0].Own? then OwnGroups(committed) + [g] else OwnGroups(committed)
  {
    assert (committed + [g])[..|committed|] == committed;
  }

  lemma {:induction false} SilentAnswersNothing(log: Log, i: nat)
    requires forall k :: 0 <= k < |log| ==> TxOf(log[k].0) != Some(i)
    ensures Answered(log, i) == []
  {
    if log != [] {
      SilentAnswersNothing(log[..|log| - 1], i);
      assert TxOf(log[|log| - 1].0) != Some(i);
    }
  }

  lemma {:induction false} AnsweredAreOwn(log: Log, i: nat)
    ensures AllOwn(Answered(log, i), i)
  {
    if log != [] {
      AnsweredAreOwn(log[..|log| - 1], i);
    }
  }

  // -------------------------------------------------------------------- interactive commits

  /** The transaction whose message was served last. */
  function LastTx(log: Log): Option<nat> {
    if log == [] then None else TxOf(log[|log| - 1].0)
  }

  /** What is pending in an interactive transaction are its statements so far. */
  predicate PendingOk(e: Engine, log: Log) {
    e.interactive ==> LastTx(log).Some? && e.pending == Answered(log, LastTx(log).value)
  }

  predicate Tracks(e: Engine, log: Log) {
    OwnGroups(e.committed) == Kept(log) && PendingOk(e, log)
  }

  /** The message served next is an inner one of the transaction served last, or begins one, or is none's. */
  predicate Follows(log: Log, m: Msg) {
    && (Inner(m) ==> LastTx(log) == TxOf(m))
    && (m.Begin? ==> forall k :: 0 <= k < |log| ==> TxOf(log[k].0) != Some(m.i))
  }

  lemma PlainTracks(e: Engine, log: Log, m: Msg, o: Outcome)
    requires Tracks(e, log) && m.Plain? && !e.interactive && AllPlain(e.pending)
    ensures Tracks(PlainStep(e, m, o).0, log + [(m, PlainStep(e, m, o).1)])
  {
    LogGrows(log, m, PlainStep(e, m, o).1);
    GroupsGrow(e.committed, [m]);
    GroupsGrow(e.committed, e.pending + [m]);
    assert (e.pending + [m])[0].Plain?;
  }

  lemma BeginTracks(e: Engine, log: Log, m: Msg, o: Outcome)
    requires Tracks(e, log) && m.Begin? && !e.interactive && Follows(log, m)
    ensures Tracks(BeginStep(e, o).0, log + [(m, BeginStep(e, o).1)])
  {
    LogGrows(log, m, BeginStep(e, o).1);
    SilentAnswersNothing(log, m.i);
  }

  lemma OwnTracks(e: Engine, log: Log, m: Msg, o: Outcome)
    requires Tracks(e, log) && m.Own? && Follows(log, m)
    ensures Tracks(OwnStep(e, m, o).0, log + [(m, OwnStep(e, m, o).1)])
  {
    LogGrows(log, m, OwnStep(e, m, o).1);
  }

  lemma CommitTracks(e: Engine, log: Log, m: Msg, o: Outcome)
    requires Tracks(e, log) && m.Commit? && Follows(log, m)
    ensures Tracks(CommitStep(e, o).0, log + [(m, CommitStep(e, o).1)])
  {
    LogGrows(log, m, CommitStep(e, o).1);
    GroupsGrow(e.committed, e.pending);
    AnsweredAreOwn(log, m.i);
  }

  lemma RollbackTracks(e: Engine, log: Log, m: Msg)
    requires Tracks(e, log) && m.Rollback?
    ensures Tracks(RollbackStep(e).0, log + [(m, RollbackStep(e).1)])
  {
    LogGrows(log, m, RollbackStep(e).1);
  }

  lemma CloseTracks(e: Engine, log: Log, m: Msg)
    requires Tracks(e, log) && m.CloseMsg? && !e.interactive
    ensures Tracks(Serve(e, m, Runs).0, log + [(m, true)])
  {
    LogGrows(log, m, true);
  }

  lemma ServedFollows(s: System)
    requires Sound(s) && |s.replies| < |s.client.posted|
    ensures Follows(Served(s), s.client.posted[|s.replies|])
  {
    var n, m := |s.replies|, s.client.posted[|s.replies|];
    if Inner(m) {
      assert n > 0 && Served(s)[n - 1].0 == s.client.posted[n - 1];
    }
  }

  lemma ServeTracks(s: System, o: Outcome)
    requires Sound(s) && Tracks(s.engine, Served(s)) && |s.replies| < |s.client.posted|
    ensures Tracks(Next(s, ServeNext(o)).engine, Served(Next(s, ServeNext(o))))
  {
    var e, log, m := s.engine, Served(s), s.client.posted[|s.replies|];
    ServedGrows(s, o);
    ServedFollows(s);
    if !Inner(m) {
      OuterMessagesFindItEnded(e, s.client.posted, s.replies);
    }
    match m
    case Plain(_) => PlainTracks(e, log, m, o);
    case Begin(_, _) => BeginTracks(e, log, m, o);
    case Own(_, _) => OwnTracks(e, log, m, o);
    case Commit(_) => CommitTracks(e, log, m, o);
    case Rollback(_) => RollbackTracks(e, log, m);
    case CloseMsg => CloseTracks(e, log, m);
  }

  lemma OtherStepsOnlyPost(s: System, e: Step)
    requires Complete(s) && Enabled(s, e) && !e.ServeNext?
    ensures Served(Next(s, e)) == Served(s) && Next(s, e).engine == s.engine
  {
    ClientStepIsSound(s, e);
    PostsDoNotCount(s, e);
  }

  /**
   * In every run, the interactive commits are exactly these: for each commit answered with success, in
   * order, the statements of its transaction that were answered with success, in order.
   */
  lemma {:induction false} InteractiveCommitsExactly(run: seq<Step>)
    ensures OwnGroups(After(run).engine.committed) == Kept(Served(After(run)))
    ensures PendingOk(After(run).engine, Served(After(run)))
  {
    if run != [] {
      var front, e := run[..|run| - 1], run[|run| - 1];
      InteractiveCommitsExactly(front);
      RunIsSound(front);
      if Enabled(After(front), e) {
        if e.ServeNext? { ServeTracks(After(front), e.outcome); } else { OtherStepsOnlyPost(After(front), e); }
      }
    }
  }

  // ------------------------------------------------------------------ statement by statement

  predicate Holds(groups: seq<seq<Msg>>, m: Msg) {
    exists g :: 0 <= g < |groups| && m in groups[g]
  }

  lemma HoldsMore(groups: seq<seq<Msg>>, g: seq<Msg>, m: Msg)
    ensures Holds(groups + [g], m) <==> Holds(groups, m) || m in g
  {
    var more := groups + [g];
    if Holds(groups, m) {
      var k :| 0 <= k < |groups| && m in groups[k];
      assert m in more[k];
    } else if m in g {
      assert m in more[|groups|];
    }
  }

  lemma {:induction false} OwnGroupsHold(committed: seq<seq<Msg>>, m: Msg)
    requires m.Own? && forall g :: 0 <= g < |committed| ==> Pure(committed[g])
    ensures Holds(committed, m) <==> Holds(OwnGroups(committed), m)
  {
    if committed != [] {
      var front, last := committed[..|committed| - 1], committed[|committed| - 1];
      OwnGroupsHold(front, m);
      assert committed == front + [last];
      HoldsMore(front, last, m);
      HoldsMore(OwnGroups(front), last, m);
    }
  }

  /** The statement was answered with success before place `n`. */
  predicate AnsweredBefore(log: Log, m: Msg, n: nat) {
    exists k :: 0 <= k < n && k < |log| && log[k] == (m, true)
  }

  predicate CommittedAfter(log: Log, m: Msg)
    requires m.Own?
  {
    exists j :: 0 <= j < |log| && log[j] == (Commit(m.i), true) && AnsweredBefore(log, m, j)
  }

  lemma {:induction false} AnsweredExactly(log: Log, m: Msg, i: nat)
    requires m.Own?
    ensures m in Answered(log, i) <==> m.i == i && AnsweredBefore(log, m, |log|)
  {
    if log != [] {
      var n := |log| - 1;
      AnsweredExactly(log[..n], m, i);
      if AnsweredBefore(log[..n], m, n) {
        var k :| 0 <= k < n && log[..n][k] == (m, true);
        assert log[k] == (m, true);
      }
      if AnsweredBefore(log, m, n + 1) {
        var k :| 0 <= k < n + 1 && log[k] == (m, true);
        assert k < n ==> log[..n][k] == (m, true);
      }
      AnsweredAreOwn(log, i);
    }
  }

  lemma BeforeIsPrefix(log: Log, m: Msg, j: nat)
    requires j <= |log|
    ensures AnsweredBefore(log[..j], m, j) <==> AnsweredBefore(log, m, j)
  {
    if AnsweredBefore(log, m, j) {
      var k :| 0 <= k < j && log[k] == (m, true);
      assert log[..j][k] == (m, true);
    }
  }

  lemma CommittedSooner(log: Log, m: Msg)
    requires m.Own? && log != []
    ensures CommittedAfter(log, m) <==>
              || CommittedAfter(log[..|log| - 1], m)
              || (log[|log| - 1] == (Commit(m.i), true) && AnsweredBefore(log[..|log| - 1], m, |log| - 1))
  {
    var n, front := |log| - 1, log[..|log| - 1];
    if CommittedAfter(log, m) {
      var j :| 0 <= j < |log| && log[j] == (Commit(m.i), true) && AnsweredBefore(log, m, j);
      BeforeIsPrefix(log, m, j);
      if j < n {
        BeforeIsPrefix(front, m, j);
        assert front[..j] == log[..j] && front[j] == log[j];
      }
    }
    if CommittedAfter(front, m) {
      var j :| 0 <= j < n && front[j] == (Commit(m.i), true) && AnsweredBefore(front, m, j);
      BeforeIsPrefix(front, m, j);
      BeforeIsPrefix(log, m, j);
      assert front[..j] == log[..j] && front[j] == log[j];
    }
    BeforeIsPrefix(log, m, n);
  }

  lemma {:induction false} KeptExactly(log: Log, m: Msg)
    requires m.Own?
    ensures Holds(Kept(log), m) <==> CommittedAfter(log, m)
  {
    if log != [] {
      var before := log[..|log| - 1];
      var (last, ok) := log[|log| - 1];
      KeptExactly(before, m);
      CommittedSooner(log, m);
      if last.Commit? {
        AnsweredExactly(before, m, last.i);
        HoldsMore(Kept(before), Answered(before, last.i), m);
      }
    }
  }

  /**
   * A statement of an interactive transaction is committed if and only if it was answered with success and
   * a commit of its transaction was, later. A transaction that was rolled back leaves nothing.
   */
  lemma StatementIsKeptExactly(run: seq<Step>, m: Msg)
    requires m.Own?
    ensures Holds(After(run).engine.committed, m) <==> CommittedAfter(Served(After(run)), m)
  {
    RunIsSound(run);
    InteractiveCommitsExactly(run);
    OwnGroupsHold(After(run).engine.committed, m);
    KeptExactly(Served(After(run)), m);
  }

  // -------------------------------------------------------------- without open plain SQL

  /** A plain call that leaves a transaction open, by a BEGIN of its own. */
  predicate Opens(s: System, e: Step) {
    e.ServeNext? && e.outcome.OpensOne? && |s.replies| < |s.client.posted| && s.client.posted[|s.replies|].Plain?
  }

  predicate NoOpening(run: seq<Step>) {
    run == [] || (NoOpening(run[..|run| - 1]) && !Opens(After(run[..|run| - 1]), run[|run| - 1]))
  }

  predicate Exact(e: Engine, log: Log) {
    e.committed == Commits(log) && (e.open ==> e.interactive)
  }

  lemma EngineIsExact(e: Engine, log: Log, m: Msg, o: Outcome)
    requires PendingOk(e, log) && Exact(e, log) && Follows(log, m)
    requires (!Inner(m) ==> !e.interactive) && (m.Plain? ==> !o.OpensOne?)
    ensures Exact(Serve(e, m, o).0, log + [(m, Serve(e, m, o).1)])
  {
    LogGrows(log, m, Serve(e, m, o).1);
  }

  lemma ServeIsExact(s: System, o: Outcome)
    requires Sound(s) && Tracks(s.engine, Served(s)) && Exact(s.engine, Served(s))
    requires |s.replies| < |s.client.posted| && !Opens(s, ServeNext(o))
    ensures Exact(Next(s, ServeNext(o)).engine, Served(Next(s, ServeNext(o))))
  {
    ServedGrows(s, o);
    ServedFollows(s);
    if !Inner(s.client.posted[|s.replies|]) {
      OuterMessagesFindItEnded(s.engine, s.client.posted, s.replies);
    }
    EngineIsExact(s.engine, Served(s), s.client.posted[|s.replies|], o);
  }

  /**
   * While no plain call leaves a transaction open, all that is committed is exactly what the log says: each
   * plain call answered with success alone, and at each commit answered with success the statements of its
   * transaction that were.
   */
  lemma {:induction false} CommittedExactly(run: seq<Step>)
    requires NoOpening(run)
    ensures After(run).engine.committed == Commits(Served(After(run)))
    ensures After(run).engine.open ==> After(run).engine.interactive
  {
    if run != [] {
      var front, e := run[..|run| - 1], run[|run| - 1];
      CommittedExactly(front);
      InteractiveCommitsExactly(front);
      RunIsSound(front);
      if Enabled(After(front), e) {
        if e.ServeNext? { ServeIsExact(After(front), e.outcome); } else { OtherStepsOnlyPost(After(front), e); }
      }
    }
  }

  // ------------------------------------------------------------------------ plain calls

  /** A message after which what was pending may be gone: a rollback, the close, or one that failed. */
  predicate Discards(entry: (Msg, bool)) {
    entry.0.Rollback? || entry.0.CloseMsg? || !entry.1
  }

  predicate DiscardedLater(log: Log, k: nat) {
    exists j :: k < j < |log| && Discards(log[j])
  }

  predicate PlainKept(e: Engine, log: Log, k: nat)
    requires k < |log|
  {
    log[k].0.Plain? && log[k].1 ==> Holds(e.committed, log[k].0) || log[k].0 in e.pending || DiscardedLater(log, k)
  }

  predicate AllPlainKept(e: Engine, log: Log) {
    forall k :: 0 <= k < |log| ==> PlainKept(e, log, k)
  }

  /** What one served message may do: only success commits, and nothing does while a transaction stays open. */
  lemma ServeCommits(e: Engine, m: Msg, o: Outcome)
    requires !e.open ==> e.pending == []
    ensures var (f, ok) := Serve(e, m, o);
            && e.committed <= f.committed
            && (f.committed != e.committed ==> ok && (m.Plain? || m.Commit?) && !f.open)
            && (ok && m.Plain? ==> f.committed == e.committed + [e.pending + [m]] || f.pending == e.pending + [m])
            && (f.pending == e.pending || f.pending == e.pending + [m]
                || f.committed == e.committed + [e.pending + [m]] || f.committed == e.committed + [e.pending]
                || Discards((m, ok)) || e.pending == [])
  {
    assert e.pending == [] ==> e.pending + [m] == [m];
  }

  lemma HoldsLonger(groups: seq<seq<Msg>>, more: seq<seq<Msg>>, m: Msg)
    requires groups <= more && Holds(groups, m)
    ensures Holds(more, m)
  {
    var g :| 0 <= g < |groups| && m in groups[g];
    assert m in more[g];
  }

  lemma KeptLonger(e: Engine, log: Log, m: Msg, o: Outcome, k: nat)
    requires (!e.open ==> e.pending == []) && k < |log| && PlainKept(e, log, k)
    ensures PlainKept(Serve(e, m, o).0, log + [(m, Serve(e, m, o).1)], k)
  {
    ServeCommits(e, m, o);
    var (f, ok) := Serve(e, m, o);
    var more := log + [(m, ok)];
    if log[k].0.Plain? && log[k].1 {
      if Holds(e.committed, log[k].0) {
        HoldsLonger(e.committed, f.committed, log[k].0);
      } else if DiscardedLater(log, k) {
        var j :| k < j < |log| && Discards(log[j]);
        assert Discards(more[j]);
      } else if Discards((m, ok)) {
        assert Discards(more[|log|]);
      } else if f.committed != e.committed {
        HoldsMore(e.committed, f.committed[|e.committed|], log[k].0);
      }
    }
  }

  lemma ServeKeepsPlain(e: Engine, log: Log, m: Msg, o: Outcome)
    requires (!e.open ==> e.pending == []) && AllPlainKept(e, log)
    ensures AllPlainKept(Serve(e, m, o).0, log + [(m, Serve(e, m, o).1)])
  {
    ServeCommits(e, m, o);
    var (f, ok) := Serve(e, m, o);
    forall k | 0 <= k <= |log| ensures PlainKept(f, log + [(m, ok)], k) {
      if k < |log| {
        KeptLonger(e, log, m, o, k);
      } else if m.Plain? && ok && f.committed != e.committed {
        HoldsMore(e.committed, f.committed[|e.committed|], m);
      }
    }
  }

  /** A plain call that was answered with success is committed, or pending in a transaction plain calls opened,
      or a rollback, the close or a failure came later. */
  lemma {:induction false} NoPlainCallIsLost(run: seq<Step>)
    ensures AllPlainKept(After(run).engine, Served(After(run)))
  {
    if run != [] {
      var front, e := run[..|run| - 1], run[|run| - 1];
      NoPlainCallIsLost(front);
      RunIsSound(front);
      var s := After(front);
      if Enabled(s, e) {
        if e.ServeNext? {
          ServedGrows(s, e.outcome);
          ServeKeepsPlain(s.engine, Served(s), s.client.posted[|s.replies|], e.outcome);
        } else {
          OtherStepsOnlyPost(s, e);
        }
      }
    }
  }

  /** Whatever is served next: only a success commits anything, and nothing is committed while a transaction
      stays open. */
  lemma OnlySuccessCommits(run: seq<Step>, o: Outcome)
    requires |After(run).replies| < |After(run).client.posted|
    ensures var s := After(run);
            var m := s.client.posted[|s.replies|];
            var (after, ok) := Serve(s.engine, m, o);
            && s.engine.committed <= after.committed
            && (after.committed != s.engine.committed ==> ok && (m.Plain? || m.Commit?) && !after.open)
  {
    RunIsSound(run);
    ServeCommits(After(run).engine, After(run).client.posted[|After(run).replies|], o);
  }

  // ------------------------------------------------------------------------ who is refused

  predicate NothingFails(run: seq<Step>) {
    forall k :: 0 <= k < |run| && run[k].ServeNext? ==> run[k].outcome.Runs?
  }

  /** A transaction is open exactly from its begin to its end. */
  predicate OpenExactly(e: Engine, posted: seq<Msg>, replies: seq<bool>) {
    && (e.open <==> e.interactive)
    && |replies| <= |posted|
    && (e.interactive <==>
          |replies| > 0 && TxOf(posted[|replies| - 1]).Some?
          && !Resolved(posted, replies, TxOf(posted[|replies| - 1]).value, |replies|))
  }

  /** The k-th reply refuses exactly what comes from a transaction that has ended. */
  predicate ReplyOk(posted: seq<Msg>, replies: seq<bool>, k: nat)
    requires k < |replies| <= |posted|
  {
    replies[k] <==> (posted[k].Own? || posted[k].Commit? ==> !Resolved(posted, replies, posted[k].i, k))
  }

  predicate RepliesOk(posted: seq<Msg>, replies: seq<bool>) {
    |replies| <= |posted| && forall k :: 0 <= k < |replies| ==> ReplyOk(posted, replies, k)
  }

  lemma ResolvedEarlier(posted: seq<Msg>, more: seq<Msg>, replies: seq<bool>, later: seq<bool>, i: nat, n: nat)
    requires posted <= more && replies <= later && n <= |replies| <= |posted|
    ensures Resolved(posted, replies, i, n) <==> Resolved(more, later, i, n)
  {
    assert forall j :: 0 <= j < n ==> (Ends(posted, replies, i, j) <==> Ends(more, later, i, j));
  }

  lemma RepliesStayOk(posted: seq<Msg>, more: seq<Msg>, replies: seq<bool>, later: seq<bool>, k: nat)
    requires posted <= more && replies <= later && RepliesOk(posted, replies) && k < |replies| && |later| <= |more|
    ensures ReplyOk(more, later, k)
  {
    assert ReplyOk(posted, replies, k);
    if posted[k].Own? || posted[k].Commit? {
      ResolvedEarlier(posted, more, replies, later, posted[k].i, k);
    }
  }

  lemma ServeOpensExactly(e: Engine, posted: seq<Msg>, replies: seq<bool>)
    requires EngineOk(e, posted, replies) && Adjacent(posted) && Bounded(posted, replies) && FreshBegins(posted)
    requires |replies| < |posted| && OpenExactly(e, posted, replies)
    ensures var (f, ok) := Serve(e, posted[|replies|], Runs);
            OpenExactly(f, posted, replies + [ok]) && ReplyOk(posted, replies + [ok], |replies|)
  {
    var n, m := |replies|, posted[|replies|];
    var ok := Serve(e, m, Runs).1;
    if !Inner(m) {
      OuterMessagesFindItEnded(e, posted, replies);
    }
    if TxOf(m).Some? {
      var i := TxOf(m).value;
      ResolvedIsTheSame(posted, replies, ok, i);
      ResolvedEarlier(posted, posted, replies, replies + [ok], i, n);
      assert m.Begin? ==> forall j :: 0 <= j < n ==> !Ends(posted, replies, i, j);
    }
  }

  lemma PostsKeepOpen(e: Engine, posted: seq<Msg>, more: seq<Msg>, replies: seq<bool>)
    requires OpenExactly(e, posted, replies) && posted <= more
    ensures OpenExactly(e, more, replies)
  {
    if |replies| > 0 && TxOf(posted[|replies| - 1]).Some? {
      ResolvedEarlier(posted, more, replies, replies, TxOf(posted[|replies| - 1]).value, |replies|);
    }
  }

  predicate Refuses(s: System) {
    RepliesOk(s.client.posted, s.replies) && OpenExactly(s.engine, s.client.posted, s.replies)
  }

  lemma RefusedNext(s: System, e: Step)
    requires Complete(s) && Refuses(s) && Enabled(s, e) && (e.ServeNext? ==> e.outcome.Runs?)
    ensures Refuses(Next(s, e))
  {
    var t := Next(s, e);
    if e.ServeNext? {
      ServeOpensExactly(s.engine, s.client.posted, s.replies);
    } else {
      ClientStepIsSound(s, e);
      PostsKeepOpen(s.engine, s.client.posted, t.client.posted, s.replies);
    }
    forall k | 0 <= k < |s.replies| ensures ReplyOk(t.client.posted, t.replies, k) {
      RepliesStayOk(s.client.posted, t.client.posted, s.replies, t.replies, k);
    }
  }

  /** While SQLite fails nothing, exactly the statements and commits that arrive after their transaction's end
      are refused, and every other message succeeds. */
  lemma {:induction false} RefusedExactly(run: seq<Step>)
    requires NothingFails(run)
    ensures Refuses(After(run))
  {
    if run != [] {
      var front, e := run[..|run| - 1], run[|run| - 1];
      RefusedExactly(front);
      RunIsSound(front);
      if Enabled(After(front), e) { RefusedNext(After(front), e); }
    }
  }
}
