/**
 * Which requests the SQL proxy posts (src/sql/client.ts): when a transaction is begun, committed and rolled
 * back, when its callback gets the handle, and that no call is forgotten.
 */
module SqlRequests {
  import opened Prelude
  import opened SqlEngine
  import opened SqlClient
  import opened SqlIsolation

  predicate Sent(s: System, m: Msg) {
    m in s.client.posted
  }

  predicate BeginSent(s: System, i: nat) {
    exists k :: 0 <= k < |s.client.posted| && BeginsIt(s.client.posted[k], i)
  }

  predicate BeginsIt(m: Msg, i: nat) {
    m.Begin? && m.i == i
  }

  /** The open transaction is `i`, and `close()` has not been called. */
  predicate IsOpen(s: System, i: nat) {
    i < |s.client.txs| && s.client.active == Some(i) && !Closed(s.client)
  }

  /** The transaction's turn comes. */
  predicate Starts(s: System, e: Step, i: nat) {
    e.React? && Enabled(s, e) && s.client.line[0] == Run(i) && !Closed(s.client)
  }

  /** The callback resolves. */
  predicate Resolves(s: System, e: Step, i: nat) {
    e == Advance(true) && IsOpen(s, i) && s.client.txs[i].phase.Working?
  }

  /** Its begin was refused, its callback rejects, its commit was refused, or `close()` ends it. */
  predicate Undoes(s: System, e: Step, i: nat) {
    && Enabled(s, e) && IsOpen(s, i)
    && (e.Close? || (e.Advance? && !s.client.txs[i].phase.RollingBack? && !AdvanceOk(s, e)))
  }

  /** `close()` comes while nothing is open, or the rollback it posted has been answered. */
  predicate Closes(s: System, e: Step) {
    && Enabled(s, e)
    && ((e.Close? && s.client.active.None? && !Closed(s.client))
        || (e.ProceedClosing? && s.client.closing.AwaitRollback?))
  }

  predicate ClosedDown(run: seq<Step>) {
    run != [] && (ClosedDown(run[..|run| - 1]) || Closes(After(run[..|run| - 1]), run[|run| - 1]))
  }

  predicate Started(run: seq<Step>, i: nat) {
    run != [] && (Started(run[..|run| - 1], i) || Starts(After(run[..|run| - 1]), run[|run| - 1], i))
  }

  predicate WorkResolved(run: seq<Step>, i: nat) {
    run != [] && (WorkResolved(run[..|run| - 1], i) || Resolves(After(run[..|run| - 1]), run[|run| - 1], i))
  }

  predicate Undone(run: seq<Step>, i: nat) {
    run != [] && (Undone(run[..|run| - 1], i) || Undoes(After(run[..|run| - 1]), run[|run| - 1], i))
  }

  /** The requests one step posts. */
  predicate PostsFor(s: System, e: Step, i: nat)
    requires Enabled(s, e)
  {
    && (BeginSent(Next(s, e), i) <==> BeginSent(s, i) || Starts(s, e, i))
    && (Sent(Next(s, e), Commit(i)) <==> Sent(s, Commit(i)) || Resolves(s, e, i))
    && (Sent(Next(s, e), Rollback(i)) <==> Sent(s, Rollback(i)) || Undoes(s, e, i))
    && (Sent(Next(s, e), CloseMsg) <==> Sent(s, CloseMsg) || Closes(s, e))
  }

  /** What a step posts, if anything. */
  function NewMessage(c: Client, d: Client): Option<Msg> {
    if |d.posted| > |c.posted| then Some(d.posted[|c.posted|]) else None
  }

  lemma SentSince(s: System, t: System, i: nat)
    requires Posts(s.client, t.client)
    ensures var m := NewMessage(s.client, t.client);
            (BeginSent(t, i) <==> BeginSent(s, i) || (m.Some? && BeginsIt(m.value, i)))
            && forall x :: Sent(t, x) <==> Sent(s, x) || m == Some(x)
  {
    var n := |s.client.posted|;
    assert forall k :: 0 <= k < n ==> t.client.posted[k] == s.client.posted[k];
    if |t.client.posted| > n {
      assert t.client.posted[n] == NewMessage(s.client, t.client).value;
    }
  }

  lemma ReactSends(c: Client)
    requires c.line != [] && (c.line[0].Run? ==> c.line[0].i < |c.txs|)
    ensures NewMessage(c, ReactStep(c)) ==
            match c.line[0]
            case Dec(_) => None
            case Post(call) => if call in c.waiting then Some(Plain(call)) else None
            case Run(i) => if Closed(c) then None else Some(Begin(i, c.txs[i].call))
  {
  }

  lemma AdvanceSends(s: System, e: Step)
    requires Sound(s) && e.Advance? && Enabled(s, e)
    ensures var j := s.client.active.value;
            NewMessage(s.client, Next(s, e).client) ==
            if Resolves(s, e, j) then Some(Commit(j)) else if Undoes(s, e, j) then Some(Rollback(j)) else None
  {
    var c, j := s.client, s.client.active.value;
    assert c.txs[j].ended == if Closed(c) then EndedByClose else Live;
  }

  /** What is posted for transaction `i` is posted for a reason. */
  predicate ForAReason(s: System, e: Step, i: nat)
    requires Enabled(s, e)
  {
    var m := NewMessage(s.client, Next(s, e).client);
    && (m.Some? && BeginsIt(m.value, i) <==> Starts(s, e, i))
    && (m == Some(Commit(i)) <==> Resolves(s, e, i))
    && (m == Some(Rollback(i)) <==> Undoes(s, e, i))
    && (m == Some(CloseMsg) <==> Closes(s, e))
  }

  lemma ReactHasAReason(s: System, i: nat)
    requires Sound(s) && Enabled(s, React)
    ensures ForAReason(s, React, i)
  {
    ReactSends(s.client);
  }

  lemma AdvanceHasAReason(s: System, e: Step, i: nat)
    requires Sound(s) && e.Advance? && Enabled(s, e)
    ensures ForAReason(s, e, i)
  {
    AdvanceSends(s, e);
  }

  lemma CloseHasAReason(s: System, e: Step, i: nat)
    requires Sound(s) && (e.Close? || e.ProceedClosing?) && Enabled(s, e)
    ensures ForAReason(s, e, i)
  {
  }

  lemma OthersHaveAReason(s: System, e: Step, i: nat)
    requires Sound(s) && (e.Call? || e.Transact? || e.Statement? || e.ServeNext?) && Enabled(s, e)
    ensures ForAReason(s, e, i)
  {
  }

  lemma StepPosts(s: System, e: Step, i: nat)
    requires Complete(s) && Enabled(s, e)
    ensures PostsFor(s, e, i)
  {
    if !e.ServeNext? { ClientStepIsSound(s, e); }
    SentSince(s, Next(s, e), i);
    assert ForAReason(s, e, i) by {
      match e
      case React => ReactHasAReason(s, i);
      case Advance(_) => AdvanceHasAReason(s, e, i);
      case Close => CloseHasAReason(s, e, i);
      case ProceedClosing => CloseHasAReason(s, e, i);
      case _ => OthersHaveAReason(s, e, i);
    }
  }

  /**
   * In every run: a transaction's begin is posted if and only if its turn came before `close()`, its commit
   * if and only if its callback resolved while it was open, and a rollback if and only if it was open and its
   * begin was refused, its callback rejected, its commit was refused or `close()` was called. The close is
   * posted if and only if `close()` was called with nothing open, or its rollback has been answered.
   */
  lemma {:induction false} RequestsExactly(run: seq<Step>, i: nat)
    ensures BeginSent(After(run), i) <==> Started(run, i)
    ensures Sent(After(run), Commit(i)) <==> WorkResolved(run, i)
    ensures Sent(After(run), Rollback(i)) <==> Undone(run, i)
    ensures Sent(After(run), CloseMsg) <==> ClosedDown(run)
  {
    if run != [] {
      var front, e := run[..|run| - 1], run[|run| - 1];
      RequestsExactly(front, i);
      RunIsSound(front);
      if Enabled(After(front), e) {
        StepPosts(After(front), e, i);
      }
    }
  }

  // -------------------------------------------------------------------------- the handle

  /** Its begin was answered with success. */
  predicate Begun(s: System, i: nat) {
    exists k :: 0 <= k < |s.replies| && k < |s.client.posted|
                && BeginsIt(s.client.posted[k], i) && s.replies[k]
  }

  predicate HandlesOk(s: System) {
    && (forall i :: 0 <= i < |s.client.txs| && s.client.txs[i].given ==> Begun(s, i))
    && (forall i :: 0 <= i < |s.client.txs| && s.client.txs[i].phase.Beginning? ==>
          var k := s.client.txs[i].phase.k;
          k < |s.client.posted| && BeginsIt(s.client.posted[k], i))
  }

  lemma BegunStays(s: System, t: System, i: nat)
    requires Begun(s, i) && s.client.posted <= t.client.posted && s.replies <= t.replies
    ensures Begun(t, i)
  {
    var k :| 0 <= k < |s.replies| && k < |s.client.posted|
             && BeginsIt(s.client.posted[k], i) && s.replies[k];
    assert t.client.posted[k] == s.client.posted[k] && t.replies[k];
  }

  /** What a transaction's next await gives its callback, and which phase it is in then. */
  lemma AdvanceGives(c: Client, i: nat, ok: bool, j: nat)
    requires i < |c.txs| && j < |c.txs|
    ensures |AdvanceStep(c, i, ok).txs| == |c.txs|
    ensures AdvanceStep(c, i, ok).txs[j].given ==> c.txs[j].given || (i == j && ok && c.txs[i].phase.Beginning?)
    ensures AdvanceStep(c, i, ok).txs[j].phase.Beginning? ==> AdvanceStep(c, i, ok).txs[j].phase == c.txs[j].phase
  {
  }

  /** Other steps give nothing, and only reactions begin anything. */
  lemma OthersGiveNothing(s: System, e: Step, j: nat)
    requires Sound(s) && Enabled(s, e) && !e.Advance? && j < |Next(s, e).client.txs|
    ensures Next(s, e).client.txs[j].given ==> j < |s.client.txs| && s.client.txs[j].given
    ensures Next(s, e).client.txs[j].phase.Beginning? && !e.React? ==>
              j < |s.client.txs| && Next(s, e).client.txs[j].phase == s.client.txs[j].phase
  {
  }

  /** Who has the handle after a step had it before, or it is the open one whose begin has succeeded. */
  lemma HandlesGiven(s: System, e: Step, i: nat)
    requires Complete(s) && HandlesOk(s) && Enabled(s, e) && i < |Next(s, e).client.txs|
    requires Next(s, e).client.txs[i].given
    ensures i < |s.client.txs|
    ensures s.client.txs[i].given
            || (s.client.txs[i].phase.Beginning? && s.client.txs[i].phase.k < |s.replies|
                && s.replies[s.client.txs[i].phase.k])
  {
    if e.Advance? {
      AdvanceGives(s.client, s.client.active.value, AdvanceOk(s, e), i);
    } else {
      OthersGiveNothing(s, e, i);
    }
  }

  /** A new begin is the one just posted. */
  lemma StartsAwaiting(c: Client, i: nat)
    requires LineOk(c) && c.line != [] && i < |c.txs|
    requires ReactStep(c).txs[i].phase.Beginning? && ReactStep(c).txs[i].phase != c.txs[i].phase
    ensures ReactStep(c).txs[i].phase.k == |c.posted| < |ReactStep(c).posted|
    ensures BeginsIt(ReactStep(c).posted[|c.posted|], i)
  {
  }

  lemma OnlyReactionsBegin(s: System, e: Step, i: nat)
    requires Sound(s) && Enabled(s, e) && !e.React? && i < |Next(s, e).client.txs|
    requires Next(s, e).client.txs[i].phase.Beginning?
    ensures i < |s.client.txs| && Next(s, e).client.txs[i].phase == s.client.txs[i].phase
  {
    if e.Advance? {
      AdvanceGives(s.client, s.client.active.value, AdvanceOk(s, e), i);
    } else {
      OthersGiveNothing(s, e, i);
    }
  }

  lemma AwaitsItsBegin(s: System, e: Step, i: nat)
    requires Complete(s) && HandlesOk(s) && Enabled(s, e) && i < |Next(s, e).client.txs|
    requires Posts(s.client, Next(s, e).client) && Next(s, e).client.txs[i].phase.Beginning?
    ensures var c, k := Next(s, e).client, Next(s, e).client.txs[i].phase.k;
            k < |c.posted| && BeginsIt(c.posted[k], i)
  {
    var c, d := s.client, Next(s, e).client;
    if !e.React? { OnlyReactionsBegin(s, e, i); }
    if d.txs[i].phase == c.txs[i].phase {
      var k := c.txs[i].phase.k;
      assert d.posted[k] == c.posted[k];
    } else {
      StartsAwaiting(c, i);
    }
  }

  lemma NextKeepsHandles(s: System, e: Step)
    requires Complete(s) && HandlesOk(s) && Enabled(s, e)
    ensures HandlesOk(Next(s, e))
  {
    var t := Next(s, e);
    if !e.ServeNext? { ClientStepIsSound(s, e); }
    forall i | 0 <= i < |t.client.txs| && t.client.txs[i].given ensures Begun(t, i) {
      HandlesGiven(s, e, i);
      if !s.client.txs[i].given {
        assert s.client.posted[s.client.txs[i].phase.k].i == i;
      }
      BegunStays(s, t, i);
    }
    forall i | 0 <= i < |t.client.txs| && t.client.txs[i].phase.Beginning?
      ensures t.client.txs[i].phase.k < |t.client.posted| && BeginsIt(t.client.posted[t.client.txs[i].phase.k], i)
    {
      AwaitsItsBegin(s, e, i);
    }
  }

  /** The callback gets the handle only after its begin was answered with success. */
  lemma {:induction false} HandleAfterBegin(run: seq<Step>)
    ensures HandlesOk(After(run))
  {
    if run != [] {
      HandleAfterBegin(run[..|run| - 1]);
      RunIsSound(run[..|run| - 1]);
      if Enabled(After(run[..|run| - 1]), run[|run| - 1]) {
        NextKeepsHandles(After(run[..|run| - 1]), run[|run| - 1]);
      }
    }
  }

  /** What `close()` waits for is what it says, and it is over only after the close was answered. */
  predicate ClosingOk(s: System) {
    match s.client.closing
    case NotClosing => true
    case AwaitRollback(k) => k < |s.client.posted| && s.client.posted[k].Rollback?
    case AwaitClose(k) => k < |s.client.posted| && s.client.posted[k].CloseMsg?
    case Terminated => exists k :: 0 <= k < |s.replies| && k < |s.client.posted| && s.client.posted[k].CloseMsg?
  }

  lemma SameClosing(s: System, t: System)
    requires ClosingOk(s) && t.client.closing == s.client.closing
    requires s.client.posted <= t.client.posted && s.replies <= t.replies
    ensures ClosingOk(t)
  {
    if s.client.closing.Terminated? {
      var k :| 0 <= k < |s.replies| && k < |s.client.posted| && s.client.posted[k].CloseMsg?;
      assert t.client.posted[k] == s.client.posted[k];
    }
  }

  lemma CloseSets(s: System)
    requires ActiveOk(s.client) && ClosingOk(s)
    ensures ClosingOk(Next(s, Close))
  {
    if Closed(s.client) {
      assert Next(s, Close) == s;
    }
  }

  lemma ProceedSets(s: System)
    requires ClosingOk(s) && Enabled(s, ProceedClosing)
    ensures ClosingOk(Next(s, ProceedClosing))
  {
    var t := Next(s, ProceedClosing);
    if s.client.closing.AwaitClose? {
      assert t.client.posted[s.client.closing.k].CloseMsg?;
    }
  }

  lemma NextKeepsClosing(s: System, e: Step)
    requires Complete(s) && ClosingOk(s) && Enabled(s, e)
    ensures ClosingOk(Next(s, e))
  {
    match e
    case Close => CloseSets(s);
    case ProceedClosing => ProceedSets(s);
    case ServeNext(_) => SameClosing(s, Next(s, e));
    case _ =>
      ClientStepIsSound(s, e);
      SameClosing(s, Next(s, e));
  }

  lemma {:induction false} ClosedAfterTheClose(run: seq<Step>)
    ensures ClosingOk(After(run))
  {
    if run != [] {
      ClosedAfterTheClose(run[..|run| - 1]);
      RunIsSound(run[..|run| - 1]);
      if Enabled(After(run[..|run| - 1]), run[|run| - 1]) {
        NextKeepsClosing(After(run[..|run| - 1]), run[|run| - 1]);
      }
    }
  }

  // ------------------------------------------------------------------------- every call

  /** The call a message carries. */
  predicate Carries(m: Msg, c: nat) {
    (m.Plain? || m.Begin? || m.Own?) && m.c == c
  }

  predicate Posted(c: Client, call: nat) {
    exists k :: 0 <= k < |c.posted| && Carries(c.posted[k], call)
  }

  /** The call stands in the line, and will be posted when its turn comes. */
  predicate Waits(c: Client, call: nat) {
    exists p :: 0 <= p < |c.line| && StandsFor(c, c.line[p], call)
  }

  predicate StandsFor(c: Client, item: Item, call: nat) {
    match item
    case Post(k) => k == call && k in c.waiting
    case Run(i) => i < |c.txs| && c.txs[i].call == call
    case Dec(_) => false
  }

  predicate Accounted(c: Client) {
    Closed(c) || forall call :: 0 <= call < c.calls ==> Posted(c, call) || Waits(c, call)
  }

  lemma PostedStays(c: Client, d: Client, call: nat)
    requires c.posted <= d.posted && Posted(c, call)
    ensures Posted(d, call)
  {
    var k :| 0 <= k < |c.posted| && Carries(c.posted[k], call);
    assert d.posted[k] == c.posted[k];
  }

  lemma WaitsStays(c: Client, d: Client, call: nat)
    requires Waits(c, call) && c.line <= d.line && c.waiting <= d.waiting
    requires |c.txs| <= |d.txs| && forall i :: 0 <= i < |c.txs| ==> d.txs[i].call == c.txs[i].call
    ensures Waits(d, call)
  {
    var p :| 0 <= p < |c.line| && StandsFor(c, c.line[p], call);
    assert d.line[p] == c.line[p] && StandsFor(d, d.line[p], call);
  }

  /** A new call is posted or put into the line. */
  lemma NewCall(c: Client, d: Client)
    requires d.calls == c.calls || d.calls == c.calls + 1
    requires d.calls > c.calls ==>
               || (d.posted != [] && Carries(d.posted[|d.posted| - 1], c.calls))
               || (exists p :: 0 <= p < |d.line| && StandsFor(d, d.line[p], c.calls))
    requires Accounted(c) && !Closed(c) && c.posted <= d.posted && c.line <= d.line && c.waiting <= d.waiting
    requires |c.txs| <= |d.txs| && forall i :: 0 <= i < |c.txs| ==> d.txs[i].call == c.txs[i].call
    ensures Accounted(d)
  {
    forall call | 0 <= call < d.calls ensures Posted(d, call) || Waits(d, call) {
      if call < c.calls {
        if Posted(c, call) { PostedStays(c, d, call); } else { WaitsStays(c, d, call); }
      }
    }
  }

  lemma ReactAccounts(c: Client)
    requires LineOk(c) && Accounted(c) && !Closed(c) && c.line != []
    ensures Accounted(ReactStep(c))
  {
    var d := ReactStep(c);
    forall call | 0 <= call < d.calls ensures Posted(d, call) || Waits(d, call) {
      if Posted(c, call) {
        PostedStays(c, d, call);
      } else {
        var p :| 0 <= p < |c.line| && StandsFor(c, c.line[p], call);
        if p > 0 {
          assert d.line[p - 1] == c.line[p];
          if !StandsFor(d, d.line[p - 1], call) {
            assert Carries(d.posted[|c.posted|], call);
          }
        } else {
          assert Carries(d.posted[|c.posted|], call);
        }
      }
    }
  }

  lemma CallAccounts(c: Client)
    requires Accounted(c) && !Closed(c)
    ensures Accounted(CallStep(c))
  {
    var d := CallStep(c);
    if c.count != 0 { assert StandsFor(d, d.line[|c.line|], c.calls); }
    NewCall(c, d);
  }

  lemma TransactAccounts(c: Client)
    requires Accounted(c) && !Closed(c)
    ensures Accounted(TransactStep(c))
  {
    var d := TransactStep(c);
    assert StandsFor(d, d.line[|c.line|], c.calls);
    NewCall(c, d);
  }

  lemma NextAccounts(s: System, e: Step)
    requires Complete(s) && Accounted(s.client) && Enabled(s, e)
    ensures Accounted(Next(s, e).client)
  {
    if !Closed(s.client) {
      match e
      case React => ReactAccounts(s.client);
      case Call => CallAccounts(s.client);
      case Transact => TransactAccounts(s.client);
      case Statement(i) => NewCall(s.client, StatementStep(s.client, i));
      case Advance(_) => NewCall(s.client, Next(s, e).client);
      case _ =>
    }
  }

  /** Until `close()`, every call that was made has been posted or stands in the line; so once the line is
      empty all of them have reached the Worker. */
  lemma {:induction false} NoCallIsForgotten(run: seq<Step>)
    ensures Accounted(After(run).client)
    ensures !Closed(After(run).client) && After(run).client.line == [] ==>
              forall call :: 0 <= call < After(run).client.calls ==> Posted(After(run).client, call)
  {
    if run != [] {
      NoCallIsForgotten(run[..|run| - 1]);
      RunIsSound(run[..|run| - 1]);
      if Enabled(After(run[..|run| - 1]), run[|run| - 1]) {
        NextAccounts(After(run[..|run| - 1]), run[|run| - 1]);
      }
    }
  }
}
