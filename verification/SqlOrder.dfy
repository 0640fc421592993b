/**
 * Whether requests reach the Worker in call order (src/sql/client.ts): they do exactly as long as no
 * call that was overtaken is posted after all. A waiting call is overtaken when a later one is posted
 * at once; it is not posted any more when it is cancelled by `close()`.
 */
module SqlOrder {
  import opened Prelude
  import opened SqlEngine
  import opened SqlClient
  import SqlIsolation

  /** The call a message carries out: a plain call's own, or the transaction's. */
  function CallOf(m: Msg): Option<nat> {
    match m
    case Plain(c) => Some(c)
    case Begin(_, c) => Some(c)
    case _ => None
  }

  /** The call an item of the line will post, if it still will. */
  function ItemCall(c: Client, p: nat): Option<nat>
    requires p < |c.line|
  {
    match c.line[p]
    case Post(call) => if call in c.waiting then Some(call) else None
    case Run(i) => if i < |c.txs| then Some(c.txs[i].call) else None
    case Dec(_) => None
  }

  predicate InCallOrder(posted: seq<Msg>) {
    forall j, k :: 0 <= j < k < |posted| && CallOf(posted[j]).Some? && CallOf(posted[k]).Some? ==>
      CallOf(posted[j]).value < CallOf(posted[k]).value
  }

  predicate LineInOrder(c: Client) {
    && (forall p :: 0 <= p < |c.line| && ItemCall(c, p).Some? ==> ItemCall(c, p).value < c.calls)
    && (forall p, q :: 0 <= p < q < |c.line| && ItemCall(c, p).Some? && ItemCall(c, q).Some? ==>
          ItemCall(c, p).value < ItemCall(c, q).value)
  }

  predicate PostedBeforeLine(c: Client) {
    && (forall k :: 0 <= k < |c.posted| && CallOf(c.posted[k]).Some? ==> CallOf(c.posted[k]).value < c.calls)
    && (forall k, p :: 0 <= k < |c.posted| && 0 <= p < |c.line|
                       && CallOf(c.posted[k]).Some? && ItemCall(c, p).Some?
                       ==> CallOf(c.posted[k]).value < ItemCall(c, p).value)
  }

  /** Waiting calls carry earlier numbers and have not been posted. */
  predicate Numbered(c: Client) {
    && (forall p :: 0 <= p < |c.line| && c.line[p].Post? ==> c.line[p].c < c.calls)
    && (forall p :: 0 <= p < |c.line| && c.line[p].Run? ==> c.line[p].i < |c.txs|)
    && (forall p, q :: 0 <= p < q < |c.line| && c.line[p].Post? && c.line[q].Post? ==> c.line[p].c < c.line[q].c)
    && (forall w <- c.waiting :: w < c.calls && Plain(w) !in c.posted)
    && (forall k :: 0 <= k < |c.posted| && c.posted[k].Plain? ==> c.posted[k].c < c.calls)
  }

  predicate Ordered(c: Client) {
    InCallOrder(c.posted) && LineInOrder(c) && PostedBeforeLine(c)
  }

  /** A plain call posted at once while another one waits. */
  predicate Overtakes(s: System, e: Step) {
    e.Call? && !Closed(s.client) && s.client.count == 0 && s.client.waiting != {}
  }

  predicate NoOvertaking(run: seq<Step>) {
    run == [] || (NoOvertaking(run[..|run| - 1]) && !Overtakes(After(run[..|run| - 1]), run[|run| - 1]))
  }

  // ------------------------------------------------------------- numbers on every run

  lemma NumberedCall(c: Client)
    requires Numbered(c)
    ensures Numbered(CallStep(c))
  {
  }

  lemma NumberedTransact(c: Client)
    requires Numbered(c)
    ensures Numbered(TransactStep(c))
  {
  }

  predicate AppendsNoCall(c: Client, d: Client) {
    c.posted <= d.posted && forall k :: |c.posted| <= k < |d.posted| ==> CallOf(d.posted[k]).None?
  }

  /** Steps that leave the line alone and post nothing of their own but transaction messages. */
  lemma NumberedSilent(c: Client, d: Client)
    requires Numbered(c) && d.line == c.line && d.waiting <= c.waiting && c.calls <= d.calls && |d.txs| == |c.txs|
    requires AppendsNoCall(c, d)
    ensures Numbered(d)
  {
  }

  lemma NumberedReact(c: Client)
    requires SqlIsolation.LineOk(c) && Numbered(c) && c.line != []
    ensures Numbered(ReactStep(c))
  {
  }

  lemma NumberedNext(s: System, e: Step)
    requires SqlIsolation.LineOk(s.client) && Numbered(s.client) && Enabled(s, e)
    ensures Numbered(Next(s, e).client)
  {
    match e
    case Call => NumberedCall(s.client);
    case Transact => NumberedTransact(s.client);
    case React => NumberedReact(s.client);
    case ServeNext(_) =>
    case _ => NumberedSilent(s.client, Next(s, e).client);
  }

  lemma {:induction false} RunIsNumbered(run: seq<Step>)
    ensures Numbered(After(run).client)
  {
    if run != [] {
      RunIsNumbered(run[..|run| - 1]);
      SqlIsolation.RunIsSound(run[..|run| - 1]);
      if Enabled(After(run[..|run| - 1]), run[|run| - 1]) {
        NumberedNext(After(run[..|run| - 1]), run[|run| - 1]);
      }
    }
  }

  // ----------------------------------------------------------------- who is overtaken

  /** The calls a step overtakes. */
  function Passes(s: System, e: Step): set<nat> {
    if Overtakes(s, e) then s.client.waiting else {}
  }

  /** Every call that some step of the run has overtaken. */
  function Overtaken(run: seq<Step>): set<nat> {
    if run == [] then {} else Overtaken(run[..|run| - 1]) + Passes(After(run[..|run| - 1]), run[|run| - 1])
  }

  /** Messages are in call order exactly when none of these calls is among them. */
  predicate Decides(overtaken: set<nat>, posted: seq<Msg>) {
    InCallOrder(posted) <==> forall w <- overtaken :: Plain(w) !in posted
  }

  predicate AllBelow(posted: seq<Msg>, n: nat) {
    forall k :: 0 <= k < |posted| && CallOf(posted[k]).Some? ==> CallOf(posted[k]).value < n
  }

  /** A later call has been posted. */
  predicate LaterPosted(posted: seq<Msg>, w: nat) {
    exists k :: 0 <= k < |posted| && CallOf(posted[k]).Some? && CallOf(posted[k]).value > w
  }

  predicate LineAbovePosted(c: Client, overtaken: set<nat>) {
    forall p :: 0 <= p < |c.line| && ItemCall(c, p).Some? && ItemCall(c, p).value !in overtaken ==>
      AllBelow(c.posted, ItemCall(c, p).value)
  }

  /** What every run keeps: only overtaken calls are behind the messages, and they are plain ones. */
  predicate Tracked(c: Client, overtaken: set<nat>) {
    && LineInOrder(c) && AllBelow(c.posted, c.calls) && LineAbovePosted(c, overtaken)
    && (forall w <- overtaken :: w < c.calls && LaterPosted(c.posted, w))
    && (forall p :: 0 <= p < |c.line| && c.line[p].Run? && ItemCall(c, p).Some? ==> ItemCall(c, p).value !in overtaken)
    && Decides(overtaken, c.posted)
  }

  // -------------------------------------------------------------------- one message more

  /** A call above all those posted and not overtaken decides nothing. */
  lemma PostAbove(overtaken: set<nat>, posted: seq<Msg>, m: Msg)
    requires Decides(overtaken, posted) && CallOf(m).Some? && AllBelow(posted, CallOf(m).value)
    requires CallOf(m).value !in overtaken
    ensures Decides(overtaken, posted + [m])
  {
    var more := posted + [m];
    assert InCallOrder(more) ==> InCallOrder(posted) by {
      assert forall k :: 0 <= k < |posted| ==> more[k] == posted[k];
    }
    assert forall w <- overtaken :: Plain(w) in more <==> Plain(w) in posted;
  }

  /** An overtaken call that is posted breaks the order. */
  lemma PostOvertaken(overtaken: set<nat>, posted: seq<Msg>, w: nat)
    requires w in overtaken && LaterPosted(posted, w)
    ensures Decides(overtaken, posted + [Plain(w)])
  {
    var more := posted + [Plain(w)];
    var k :| 0 <= k < |posted| && CallOf(posted[k]).Some? && CallOf(posted[k]).value > w;
    assert more[k] == posted[k] && more[|posted|] == Plain(w);
  }

  lemma PostSilent(overtaken: set<nat>, posted: seq<Msg>, more: seq<Msg>)
    requires Decides(overtaken, posted) && posted <= more
    requires forall k :: |posted| <= k < |more| ==> CallOf(more[k]).None?
    ensures Decides(overtaken, more)
    ensures forall n :: AllBelow(posted, n) ==> AllBelow(more, n)
  {
    forall w | w in overtaken ensures Plain(w) in more <==> Plain(w) in posted {
      if Plain(w) in more {
        var k :| 0 <= k < |more| && more[k] == Plain(w);
        assert k < |posted|;
      }
    }
    if InCallOrder(more) {
      assert forall k :: 0 <= k < |posted| ==> more[k] == posted[k];
    }
  }

  /** Calls that have not been posted may be counted as overtaken. */
  lemma MoreOvertaken(overtaken: set<nat>, more: set<nat>, posted: seq<Msg>)
    requires Decides(overtaken, posted) && forall w <- more :: Plain(w) !in posted
    ensures Decides(overtaken + more, posted)
  {
    assert (forall w <- overtaken :: Plain(w) !in posted) <==> (forall w <- overtaken + more :: Plain(w) !in posted);
  }

  lemma LaterStaysPosted(posted: seq<Msg>, more: seq<Msg>, w: nat)
    requires posted <= more && LaterPosted(posted, w)
    ensures LaterPosted(more, w)
  {
    var k :| 0 <= k < |posted| && CallOf(posted[k]).Some? && CallOf(posted[k]).value > w;
    assert more[k] == posted[k];
  }

  // ----------------------------------------------------------------------- step by step

  lemma NoTransactionWaits(c: Client)
    requires SqlIsolation.LineOk(c) && c.count == 0
    ensures forall p :: 0 <= p < |c.line| && ItemCall(c, p).Some? ==>
              c.line[p].Post? && ItemCall(c, p).value in c.waiting
  {
    SqlIsolation.CountCoversTransactions(c);
  }

  lemma ImmediateCallDecides(c: Client, overtaken: set<nat>)
    requires Numbered(c) && AllBelow(c.posted, c.calls) && Decides(overtaken, c.posted)
    requires forall w <- overtaken :: w < c.calls
    ensures Decides(overtaken + c.waiting, c.posted + [Plain(c.calls)])
  {
    PostAbove(overtaken, c.posted, Plain(c.calls));
    MoreOvertaken(overtaken, c.waiting, c.posted + [Plain(c.calls)]);
  }

  lemma ImmediateCallLine(c: Client)
    requires SqlIsolation.LineOk(c) && LineInOrder(c) && !Closed(c) && c.count == 0
    ensures LineInOrder(CallStep(c)) && LineAbovePosted(CallStep(c), c.waiting)
  {
    var d := CallStep(c);
    NoTransactionWaits(c);
    assert forall p :: 0 <= p < |d.line| ==> ItemCall(d, p) == ItemCall(c, p);
  }

  /** A call posted at once: all that wait are overtaken. */
  lemma ImmediateCallTracks(c: Client, overtaken: set<nat>)
    requires SqlIsolation.LineOk(c) && Numbered(c) && Tracked(c, overtaken) && !Closed(c) && c.count == 0
    ensures Tracked(CallStep(c), overtaken + c.waiting)
  {
    var d := CallStep(c);
    SqlIsolation.CountCoversTransactions(c);
    ImmediateCallLine(c);
    ImmediateCallDecides(c, overtaken);
    forall w | w in overtaken + c.waiting ensures w < d.calls && LaterPosted(d.posted, w) {
      assert CallOf(d.posted[|c.posted|]).value > w;
    }
  }

  lemma WaitingCallTracks(c: Client, overtaken: set<nat>)
    requires Numbered(c) && Tracked(c, overtaken) && !Closed(c) && c.count != 0
    ensures Tracked(CallStep(c), overtaken)
  {
    var d := CallStep(c);
    assert forall p :: 0 <= p < |c.line| ==> d.line[p] == c.line[p] && ItemCall(d, p) == ItemCall(c, p);
    assert ItemCall(d, |c.line|) == Some(c.calls);
  }

  lemma TransactTracks(c: Client, overtaken: set<nat>)
    requires Numbered(c) && Tracked(c, overtaken)
    ensures Tracked(TransactStep(c), overtaken)
  {
    var d := TransactStep(c);
    if !Closed(c) {
      assert forall p :: 0 <= p < |c.line| ==> d.line[p] == c.line[p] && ItemCall(d, p) == ItemCall(c, p);
      assert ItemCall(d, |c.line|) == Some(c.calls) && ItemCall(d, |c.line| + 1) == None;
    }
  }

  /** Steps that post nothing that carries a call number and leave the line alone. */
  lemma SilentStepTracks(c: Client, d: Client, overtaken: set<nat>)
    requires Tracked(c, overtaken) && d.line == c.line && d.waiting <= c.waiting && c.calls <= d.calls
    requires |d.txs| == |c.txs| && forall i :: 0 <= i < |c.txs| ==> d.txs[i].call == c.txs[i].call
    requires AppendsNoCall(c, d)
    ensures Tracked(d, overtaken)
  {
    assert forall p :: 0 <= p < |c.line| ==> ItemCall(d, p) == ItemCall(c, p) || ItemCall(d, p).None?;
    PostSilent(overtaken, c.posted, d.posted);
    forall w | w in overtaken ensures LaterPosted(d.posted, w) {
      LaterStaysPosted(c.posted, d.posted, w);
    }
  }

  /** What the reaction at the head does: it posts its call, if it still has one to post, or nothing. */
  lemma ReactEffect(c: Client)
    requires SqlIsolation.LineOk(c) && Numbered(c) && LineInOrder(c) && c.line != []
    ensures var d := ReactStep(c);
            && d.calls == c.calls && d.line == c.line[1..]
            && (forall p :: 0 <= p < |d.line| ==> d.line[p] == c.line[p + 1] && ItemCall(d, p) == ItemCall(c, p + 1))
            && (d.posted == c.posted
                || (ItemCall(c, 0).Some?
                    && d.posted == c.posted + [if c.line[0].Post? then Plain(ItemCall(c, 0).value)
                                               else Begin(c.line[0].i, ItemCall(c, 0).value)]
                    && (c.line[0].Post? || c.line[0].Run?)))
  {
    var d := ReactStep(c);
    forall p | 0 <= p < |d.line| ensures d.line[p] == c.line[p + 1] && ItemCall(d, p) == ItemCall(c, p + 1) {
      if c.line[0].Post? && c.line[p + 1].Post? {
        assert c.line[0].c < c.line[p + 1].c;
      }
    }
  }

  lemma HeadDecides(c: Client, overtaken: set<nat>, m: Msg)
    requires Tracked(c, overtaken) && c.line != [] && ItemCall(c, 0).Some? && (c.line[0].Post? || c.line[0].Run?)
    requires m == if c.line[0].Post? then Plain(ItemCall(c, 0).value) else Begin(c.line[0].i, ItemCall(c, 0).value)
    ensures Decides(overtaken, c.posted + [m])
  {
    var n := ItemCall(c, 0).value;
    if n in overtaken {
      PostOvertaken(overtaken, c.posted, n);
    } else {
      PostAbove(overtaken, c.posted, m);
    }
  }

  lemma ReactTracks(c: Client, overtaken: set<nat>)
    requires SqlIsolation.LineOk(c) && Numbered(c) && Tracked(c, overtaken) && c.line != []
    ensures Tracked(ReactStep(c), overtaken)
  {
    var d := ReactStep(c);
    ReactEffect(c);
    forall w | w in overtaken ensures LaterPosted(d.posted, w) {
      LaterStaysPosted(c.posted, d.posted, w);
    }
    if d.posted != c.posted {
      HeadDecides(c, overtaken, d.posted[|c.posted|]);
      HeadIsBelowTheRest(c, d, overtaken);
    }
  }

  /** What the head posts is below what the others will. */
  lemma HeadIsBelowTheRest(c: Client, d: Client, overtaken: set<nat>)
    requires LineInOrder(c) && LineAbovePosted(c, overtaken) && c.line != [] && ItemCall(c, 0).Some?
    requires |d.line| == |c.line| - 1 && forall p :: 0 <= p < |d.line| ==> ItemCall(d, p) == ItemCall(c, p + 1)
    requires |d.posted| == |c.posted| + 1 && c.posted <= d.posted && CallOf(d.posted[|c.posted|]) == ItemCall(c, 0)
    ensures LineAbovePosted(d, overtaken)
  {
    forall p | 0 <= p < |d.line| && ItemCall(d, p).Some? && ItemCall(d, p).value !in overtaken
      ensures AllBelow(d.posted, ItemCall(d, p).value)
    {
      assert AllBelow(c.posted, ItemCall(c, p + 1).value);
      assert forall k :: 0 <= k < |c.posted| ==> d.posted[k] == c.posted[k];
    }
  }

  lemma CallTracks(s: System, overtaken: set<nat>)
    requires SqlIsolation.LineOk(s.client) && Numbered(s.client) && Tracked(s.client, overtaken)
    ensures Tracked(CallStep(s.client), overtaken + Passes(s, Call))
  {
    var c := s.client;
    if Closed(c) || c.count != 0 {
      assert overtaken + {} == overtaken;
      if !Closed(c) { WaitingCallTracks(c, overtaken); }
    } else {
      ImmediateCallTracks(c, overtaken);
      assert Passes(s, Call) == c.waiting;
    }
  }

  lemma OthersTrack(s: System, e: Step, overtaken: set<nat>)
    requires Tracked(s.client, overtaken) && Enabled(s, e)
    requires e.Statement? || e.Close? || e.Advance? || e.ProceedClosing?
    ensures Tracked(Next(s, e).client, overtaken)
  {
    OthersAreSilent(s, e);
    SilentStepTracks(s.client, Next(s, e).client, overtaken);
  }

  lemma OthersAreSilent(s: System, e: Step)
    requires Enabled(s, e) && (e.Statement? || e.Close? || e.Advance? || e.ProceedClosing?)
    ensures var c, d := s.client, Next(s, e).client;
            && d.line == c.line && d.waiting <= c.waiting && c.calls <= d.calls
            && |d.txs| == |c.txs| && (forall i :: 0 <= i < |c.txs| ==> d.txs[i].call == c.txs[i].call)
            && AppendsNoCall(c, d)
  {
  }

  lemma NextTracks(s: System, e: Step, overtaken: set<nat>)
    requires SqlIsolation.LineOk(s.client) && Numbered(s.client) && Tracked(s.client, overtaken) && Enabled(s, e)
    ensures Tracked(Next(s, e).client, overtaken + Passes(s, e))
  {
    if e.Call? {
      CallTracks(s, overtaken);
    } else {
      assert overtaken + Passes(s, e) == overtaken;
      match e
      case Transact => TransactTracks(s.client, overtaken);
      case React => ReactTracks(s.client, overtaken);
      case ServeNext(_) =>
      case _ => OthersTrack(s, e, overtaken);
    }
  }

  lemma {:induction false} RunIsTracked(run: seq<Step>)
    ensures Tracked(After(run).client, Overtaken(run))
  {
    if run != [] {
      var before, e := After(run[..|run| - 1]), run[|run| - 1];
      RunIsTracked(run[..|run| - 1]);
      SqlIsolation.RunIsSound(run[..|run| - 1]);
      RunIsNumbered(run[..|run| - 1]);
      if Enabled(before, e) {
        NextTracks(before, e, Overtaken(run[..|run| - 1]));
      } else {
        assert Overtaken(run) == Overtaken(run[..|run| - 1]);
      }
    }
  }

  // ---------------------------------------------------------------------------- results

  /** In every run: requests have reached the Worker in call order, cancelled ones left out, if and only if
      no overtaken call has been posted after all. */
  lemma OrderIsKeptExactly(run: seq<Step>)
    ensures InCallOrder(After(run).client.posted) <==>
              forall w <- Overtaken(run) :: Plain(w) !in After(run).client.posted
  {
    RunIsTracked(run);
  }

  lemma {:induction false} NobodyIsOvertaken(run: seq<Step>)
    requires NoOvertaking(run)
    ensures Overtaken(run) == {}
  {
    if run != [] {
      NobodyIsOvertaken(run[..|run| - 1]);
    }
  }

  /** Without overtaking the order is kept, and what still waits will keep it. */
  lemma WithoutOvertakingOrderIsKept(run: seq<Step>)
    requires NoOvertaking(run)
    ensures Ordered(After(run).client)
  {
    NobodyIsOvertaken(run);
    RunIsTracked(run);
  }

  lemma {:induction false} OvertakenStays(run: seq<Step>, more: seq<Step>)
    ensures Overtaken(run) <= Overtaken(run + more)
  {
    if more == [] {
      assert run + more == run;
    } else {
      OvertakenStays(run, more[..|more| - 1]);
      assert (run + more)[..|run + more| - 1] == run + more[..|more| - 1];
    }
  }

  /** A call that is overtaken breaks the order as soon as it is posted. */
  lemma OvertakingBreaksTheOrder(run: seq<Step>, more: seq<Step>, w: nat)
    requires Overtakes(After(run), Call) && w in After(run).client.waiting
    requires Plain(w) in After(run + [Call] + more).client.posted
    ensures !InCallOrder(After(run + [Call] + more).client.posted)
  {
    assert (run + [Call])[..|run|] == run;
    assert w in Overtaken(run + [Call]);
    OvertakenStays(run + [Call], more);
    OrderIsKeptExactly(run + [Call] + more);
  }

  lemma StepAfter(run: seq<Step>, e: Step)
    requires Enabled(After(run), e)
    ensures After(run + [e]) == Next(After(run), e)
  {
    assert (run + [e])[..|run|] == run;
  }

  const FINISHED: Tx := Tx(0, Over, Finished, true)

  /** Where an awaited transaction leaves the proxy before its count-down has run. */
  const SETTLED: System := System(
    Client(NotClosing, 1, {}, [Dec(0)], None, [FINISHED], 1, [Begin(0, 0), Commit(0)]),
    Engine(false, false, [], [[]]), [true, true])

  /** The same, with the commit posted and not yet served. */
  const COMMITTING: System := System(
    Client(NotClosing, 1, {}, [Dec(0)], Some(0), [Tx(0, Committing(1), Live, true)], 1, [Begin(0, 0), Commit(0)]),
    Engine(true, true, [], []), [true])

  const BEGUN: System := System(
    Client(NotClosing, 1, {}, [Dec(0)], Some(0), [Tx(0, Beginning(0), Live, false)], 1, [Begin(0, 0)]),
    SqlEngine.START, [])

  const QUEUED: System := System(
    Client(NotClosing, 1, {}, [Run(0), Dec(0)], None, [Tx(0, Queued, Live, false)], 1, []), SqlEngine.START, [])

  lemma ATransactionIsQueued()
    ensures After([Transact]) == QUEUED
  {
    StepAfter([], Transact);
    assert [] + [Transact] == [Transact];
    assert TransactStep(IDLE) == QUEUED.client;
  }

  lemma ATransactionBegins() returns (run: seq<Step>)
    ensures After(run) == BEGUN
  {
    ATransactionIsQueued();
    StepAfter([Transact], React);
    run := [Transact] + [React];
    assert ReactStep(QUEUED.client) == BEGUN.client;
  }

  lemma ATransactionCommits() returns (run: seq<Step>)
    ensures After(run) == COMMITTING
  {
    run := ATransactionBegins();
    StepAfter(run, ServeNext(Runs));
    run := run + [ServeNext(Runs)];
    StepAfter(run, Advance(true));
    run := run + [Advance(true)];
    StepAfter(run, Advance(true));
    run := run + [Advance(true)];
  }

  lemma ATransactionSettles() returns (run: seq<Step>)
    ensures After(run) == SETTLED
  {
    run := ATransactionCommits();
    StepAfter(run, ServeNext(Runs));
    run := run + [ServeNext(Runs)];
    StepAfter(run, Advance(true));
    run := run + [Advance(true)];
  }

  /** The count-down has run, and the first of two calls behind it still waits for its turn. */
  const WAITING: Client := Client(NotClosing, 0, {1}, [Post(1)], None, [FINISHED], 2, [Begin(0, 0), Commit(0)])

  const PASSED: Client := Client(NotClosing, 0, {1}, [Post(1)], None, [FINISHED], 3, [Begin(0, 0), Commit(0), Plain(2)])

  lemma ACallWaits() returns (run: seq<Step>)
    ensures After(run).client == WAITING
  {
    run := ATransactionSettles();
    StepAfter(run, Call);
    run := run + [Call];
    StepAfter(run, React);
    run := run + [React];
  }

  /**
   * It does happen: two calls after an awaited transaction, the second of them from a microtask that
   * runs between the count-down and the first one's post.
   */
  lemma OvertakingHappens() returns (run: seq<Step>)
    ensures Overtakes(After(run), Call) && 1 in After(run).client.waiting
    ensures After(run + [Call, React]).client.posted == [Begin(0, 0), Commit(0), Plain(2), Plain(1)]
  {
    run := ACallWaits();
    StepAfter(run, Call);
    StepAfter(run + [Call], React);
    assert run + [Call] + [React] == run + [Call, React];
  }

  lemma TheOtherIsCancelled()
    ensures CallStep(WAITING) == PASSED && CloseStep(PASSED).line == [Post(1)] && CloseStep(PASSED).waiting == {}
    ensures ReactStep(CloseStep(PASSED)).line == [] && ReactStep(CloseStep(PASSED)).posted == PASSED.posted + [CloseMsg]
  {
  }

  /** Overtaken and then cancelled: the waiting call is never posted and the order stays. */
  lemma ACancelledCallMayBeOvertaken() returns (run: seq<Step>)
    ensures 1 in Overtaken(run) && After(run).client.line == []
    ensures After(run).client.posted == [Begin(0, 0), Commit(0), Plain(2), CloseMsg]
    ensures InCallOrder(After(run).client.posted)
  {
    var waits := ACallWaits();
    var passed := waits + [Call];
    TheOtherIsCancelled();
    StepAfter(waits, Call);
    assert passed[..|waits|] == waits;
    StepAfter(passed, Close);
    StepAfter(passed + [Close], React);
    OvertakenStays(passed, [Close] + [React]);
    run := passed + ([Close] + [React]);
    assert run == passed + [Close] + [React];
  }
}
