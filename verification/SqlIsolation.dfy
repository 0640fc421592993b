/** What every interleaving of the SQL proxy and its Worker keeps: isolation, rollback and call order. */
module SqlIsolation {
  import opened Prelude
  import opened SqlEngine
  import opened SqlClient

  /** The transaction a message belongs to. */
  function TxOf(m: Msg): Option<nat> {
    match m
    case Begin(i, _) => Some(i)
    case Own(i, _) => Some(i)
    case Commit(i) => Some(i)
    case Rollback(i) => Some(i)
    case _ => None
  }

  predicate Inner(m: Msg) {
    m.Own? || m.Commit? || m.Rollback?
  }

  /** Among the first `n` messages, one that ended transaction `i`. */
  predicate Ends(posted: seq<Msg>, replies: seq<bool>, i: nat, j: nat) {
    j < |posted| && (posted[j] == Rollback(i) || (posted[j] == Commit(i) && j < |replies| && replies[j]))
  }

  predicate Resolved(posted: seq<Msg>, replies: seq<bool>, i: nat, n: nat) {
    exists j :: 0 <= j < n && Ends(posted, replies, i, j)
  }

  predicate Running(phase: Phase) {
    !phase.Queued? && !phase.Over?
  }

  // -------------------------------------------------------------------- invariant

  predicate ActiveOk(c: Client) {
    && (c.active.Some? ==>
          && c.active.value < |c.txs| && Running(c.txs[c.active.value].phase)
          && c.txs[c.active.value].ended == if Closed(c) then EndedByClose else Live)
    && (forall i :: 0 <= i < |c.txs| && Running(c.txs[i].phase) ==> c.active == Some(i))
    && (forall i :: 0 <= i < |c.txs| && c.txs[i].given ==> !c.txs[i].phase.Queued?)
    && (forall i :: 0 <= i < |c.txs| && c.txs[i].phase.Over? ==> !c.txs[i].ended.Live?)
    && (forall i :: 0 <= i < |c.txs| && c.txs[i].phase.Queued? ==> c.txs[i].ended.Live?)
  }

  /** Each message of a transaction but its first directly follows another of its own. */
  predicate Adjacent(posted: seq<Msg>) {
    forall k :: 0 <= k < |posted| && Inner(posted[k]) ==> k > 0 && TxOf(posted[k - 1]) == TxOf(posted[k])
  }

  /** Whatever comes after a transaction's messages comes after its end. */
  predicate Bounded(posted: seq<Msg>, replies: seq<bool>) {
    forall k :: 0 < k < |posted| && !Inner(posted[k]) && TxOf(posted[k - 1]).Some? ==>
      Resolved(posted, replies, TxOf(posted[k - 1]).value, k)
  }

  predicate FreshBegins(posted: seq<Msg>) {
    forall j, k :: 0 <= j < k < |posted| && posted[k].Begin? ==> TxOf(posted[j]) != Some(posted[k].i)
  }

  predicate StartedOnes(c: Client) {
    forall k :: 0 <= k < |c.posted| && TxOf(c.posted[k]).Some? ==>
      TxOf(c.posted[k]).value < |c.txs| && !c.txs[TxOf(c.posted[k]).value].phase.Queued?
  }

  /** What the phase says about messages already sent. */
  predicate PhaseOk(c: Client, replies: seq<bool>, i: nat)
    requires i < |c.txs|
  {
    var x := c.txs[i];
    && (x.phase.Committing? ==> x.phase.k < |c.posted| && c.posted[x.phase.k] == Commit(i))
    && (x.phase.RollingBack? ==> Resolved(c.posted, replies, i, |c.posted|))
    && (x.ended.EndedByClose? ==> Resolved(c.posted, replies, i, |c.posted|))
    && (x.phase.Over? ==> Resolved(c.posted, replies, i, |c.posted|) || Silent(c.posted, i))
  }

  predicate Silent(posted: seq<Msg>, i: nat) {
    forall k :: 0 <= k < |posted| ==> TxOf(posted[k]) != Some(i)
  }

  predicate PhasesOk(c: Client, replies: seq<bool>) {
    forall i :: 0 <= i < |c.txs| ==> PhaseOk(c, replies, i)
  }

  /** The transaction now open posted last, until `close()` has had the last word. */
  predicate LastOk(c: Client) {
    && (c.active.Some? && (c.closing.NotClosing? || c.closing.AwaitRollback?) ==>
          c.posted != [] && TxOf(c.posted[|c.posted| - 1]) == c.active)
    && (c.closing.AwaitRollback? ==> c.posted != [] && c.posted[|c.posted| - 1].Rollback?)
  }

  predicate ClientOk(c: Client, replies: seq<bool>) {
    && ActiveOk(c) && Adjacent(c.posted) && Bounded(c.posted, replies) && FreshBegins(c.posted)
    && StartedOnes(c) && PhasesOk(c, replies) && LastOk(c) && |replies| <= |c.posted|
  }

  predicate AllOwn(pending: seq<Msg>, i: nat) {
    forall k :: 0 <= k < |pending| ==> pending[k].Own? && pending[k].i == i
  }

  predicate AllPlain(pending: seq<Msg>) {
    forall k :: 0 <= k < |pending| ==> pending[k].Plain?
  }

  /** One commit: plain calls only, or one transaction's own statements only. */
  predicate Pure(group: seq<Msg>) {
    AllPlain(group) || (group[0].Own? && AllOwn(group, group[0].i))
  }

  predicate EngineOk(e: Engine, posted: seq<Msg>, replies: seq<bool>) {
    && |replies| <= |posted|
    && (forall g :: 0 <= g < |e.committed| ==> Pure(e.committed[g]))
    && (!e.open ==> e.pending == [])
    && (!e.interactive ==> AllPlain(e.pending))
    && (e.interactive ==>
          && e.open && |replies| > 0 && TxOf(posted[|replies| - 1]).Some?
          && !Resolved(posted, replies, TxOf(posted[|replies| - 1]).value, |replies|)
          && AllOwn(e.pending, TxOf(posted[|replies| - 1]).value))
  }

  function Decs(line: seq<Item>): nat {
    if line == [] then 0 else Decs(line[..|line| - 1]) + if line[|line| - 1].Dec? then 1 else 0
  }

  /** A queued transaction stands in the line once, its count-down right behind it. */
  predicate LineOk(c: Client) {
    && c.count == Decs(c.line)
    && (forall p :: 0 <= p < |c.line| && c.line[p].Run? ==>
          && c.line[p].i < |c.txs| && c.txs[c.line[p].i].phase.Queued?
          && p + 1 < |c.line| && c.line[p + 1] == Dec(c.line[p].i))
    && (forall p, q :: 0 <= p < q < |c.line| && c.line[p].Run? && c.line[q].Run? ==> c.line[p].i != c.line[q].i)
    && (c.active.Some? ==> c.line != [] && c.line[0] == Dec(c.active.value))
  }

  predicate Sound(s: System) {
    && LineOk(s.client) && ClientOk(s.client, s.replies)
    && EngineOk(s.engine, s.client.posted, s.replies)
  }

  // ------------------------------------------------------------------ one message more

  lemma ResolvedStays(posted: seq<Msg>, more: seq<Msg>, replies: seq<bool>, later: seq<bool>, i: nat, n: nat, m: nat)
    requires posted <= more && replies <= later && n <= m && Resolved(posted, replies, i, n)
    ensures Resolved(more, later, i, m)
  {
    var j :| 0 <= j < n && Ends(posted, replies, i, j);
    assert Ends(more, later, i, j);
  }

  /** When message `m` may be appended. */
  predicate MayPost(posted: seq<Msg>, replies: seq<bool>, m: Msg) {
    && (Inner(m) ==> posted != [] && TxOf(posted[|posted| - 1]) == TxOf(m))
    && (!Inner(m) && posted != [] && TxOf(posted[|posted| - 1]).Some? ==>
          Resolved(posted, replies, TxOf(posted[|posted| - 1]).value, |posted|))
    && (m.Begin? ==> Silent(posted, m.i))
  }

  lemma PostKeepsShape(posted: seq<Msg>, replies: seq<bool>, m: Msg)
    requires Adjacent(posted) && Bounded(posted, replies) && FreshBegins(posted) && MayPost(posted, replies, m)
    ensures Adjacent(posted + [m]) && Bounded(posted + [m], replies) && FreshBegins(posted + [m])
  {
    var more := posted + [m];
    forall k | 0 < k < |more| && !Inner(more[k]) && TxOf(more[k - 1]).Some?
      ensures Resolved(more, replies, TxOf(more[k - 1]).value, k)
    {
      ResolvedStays(posted, more, replies, replies, TxOf(more[k - 1]).value, k, k);
    }
  }

  lemma PostKeepsPhase(c: Client, d: Client, replies: seq<bool>, i: nat, m: Msg)
    requires i < |c.txs| <= |d.txs| && d.txs[i] == c.txs[i] && d.posted == c.posted + [m] && PhaseOk(c, replies, i)
    requires c.txs[i].phase.Over? ==> TxOf(m) != Some(i) || Resolved(c.posted, replies, i, |c.posted|)
    ensures PhaseOk(d, replies, i)
  {
    if Resolved(c.posted, replies, i, |c.posted|) {
      ResolvedStays(c.posted, d.posted, replies, replies, i, |c.posted|, |d.posted|);
    }
  }

  lemma PostKeepsEngine(e: Engine, posted: seq<Msg>, replies: seq<bool>, m: Msg)
    requires EngineOk(e, posted, replies)
    ensures EngineOk(e, posted + [m], replies)
  {
    if e.interactive {
      var i := TxOf(posted[|replies| - 1]).value;
      assert forall j :: 0 <= j < |replies| ==> (Ends(posted + [m], replies, i, j) <==> Ends(posted, replies, i, j));
    }
  }

  /** Posting without touching the transactions' own records, but for one of them. */
  lemma PostIsSound(c: Client, d: Client, replies: seq<bool>, i: nat, m: Msg)
    requires ClientOk(c, replies) && MayPost(c.posted, replies, m) && d.posted == c.posted + [m]
    requires |d.txs| == |c.txs| && (forall j :: 0 <= j < |c.txs| && j != i ==> d.txs[j] == c.txs[j])
    requires i < |c.txs| ==> PhaseOk(d, replies, i)
    requires forall j :: 0 <= j < |c.txs| && j != i && c.txs[j].phase.Over? ==> TxOf(m) != Some(j)
    requires ActiveOk(d) && LastOk(d) && StartedOnes(d)
    ensures ClientOk(d, replies)
  {
    PostKeepsShape(c.posted, replies, m);
    forall j | 0 <= j < |d.txs| ensures PhaseOk(d, replies, j) {
      if j != i { PostKeepsPhase(c, d, replies, j, m); }
    }
  }

  // ------------------------------------------------------------------- client steps

  /** When nothing is open, whatever posted last has been resolved. */
  lemma IdleMayPost(c: Client, replies: seq<bool>, m: Msg)
    requires ClientOk(c, replies) && c.active.None? && !Inner(m)
    requires m.Begin? ==> m.i < |c.txs| && c.txs[m.i].phase.Queued?
    ensures MayPost(c.posted, replies, m)
  {
    if c.posted != [] && TxOf(c.posted[|c.posted| - 1]).Some? {
      var i := TxOf(c.posted[|c.posted| - 1]).value;
      assert PhaseOk(c, replies, i) && c.txs[i].phase.Over?;
    }
  }

  /** The open transaction may post messages of its own. */
  lemma ActiveMayPost(c: Client, replies: seq<bool>, m: Msg)
    requires ClientOk(c, replies) && c.active.Some? && !Closed(c) && Inner(m) && TxOf(m) == c.active
    ensures MayPost(c.posted, replies, m)
  {
  }

  lemma PlainPostIsSound(c: Client, d: Client, replies: seq<bool>, call: nat)
    requires ClientOk(c, replies) && c.active.None? && !Closed(c)
    requires d.posted == c.posted + [Plain(call)] && d.txs == c.txs && d.active == c.active && d.closing == c.closing
    ensures ClientOk(d, replies)
  {
    IdleMayPost(c, replies, Plain(call));
    PostIsSound(c, d, replies, |c.txs|, Plain(call));
  }

  lemma NoPostIsSound(c: Client, d: Client, replies: seq<bool>)
    requires ClientOk(c, replies)
    requires d.posted == c.posted && d.txs == c.txs && d.active == c.active && d.closing == c.closing
    ensures ClientOk(d, replies)
  {
    forall i | 0 <= i < |d.txs| ensures PhaseOk(d, replies, i) {
      assert PhaseOk(c, replies, i);
    }
  }

  lemma TransactIsSound(c: Client, replies: seq<bool>)
    requires ClientOk(c, replies)
    ensures ClientOk(TransactStep(c), replies)
  {
    var d := TransactStep(c);
    if !Closed(c) {
      forall i | 0 <= i < |d.txs| ensures PhaseOk(d, replies, i) {
        if i < |c.txs| { assert PhaseOk(c, replies, i); }
      }
    }
  }

  lemma StatementIsSound(c: Client, replies: seq<bool>, i: nat)
    requires ClientOk(c, replies) && i < |c.txs| && c.txs[i].given
    ensures ClientOk(StatementStep(c, i), replies)
  {
    if c.txs[i].ended.Live? {
      assert c.active == Some(i);
      assert PhaseOk(c, replies, i);
      var d, m := StatementStep(c, i), Own(i, c.calls);
      ActiveMayPost(c, replies, m);
      PostKeepsPhase(c, d, replies, i, m);
      PostIsSound(c, d, replies, i, m);
    }
  }

  lemma BeginPostIsSound(c: Client, replies: seq<bool>, i: nat, d: Client)
    requires ClientOk(c, replies) && c.active.None? && !Closed(c) && i < |c.txs| && c.txs[i].phase.Queued?
    requires d.posted == c.posted + [Begin(i, c.txs[i].call)] && d.active == Some(i) && d.closing == c.closing
    requires d.txs == c.txs[i := c.txs[i].(phase := Beginning(|c.posted|))]
    ensures ClientOk(d, replies)
  {
    var m := Begin(i, c.txs[i].call);
    assert PhaseOk(c, replies, i);
    IdleMayPost(c, replies, m);
    PostIsSound(c, d, replies, i, m);
  }

  /** A transaction that finds the database closed ends without having begun. */
  lemma RefusedRunIsSound(c: Client, replies: seq<bool>, i: nat, d: Client)
    requires ClientOk(c, replies) && c.active.None? && Closed(c) && i < |c.txs| && c.txs[i].phase.Queued?
    requires d.posted == c.posted && d.active == None && d.closing == c.closing
    requires d.txs == c.txs[i := c.txs[i].(phase := Over, ended := Finished)]
    ensures ClientOk(d, replies)
  {
    assert Silent(d.posted, i);
    forall j | 0 <= j < |d.txs| ensures PhaseOk(d, replies, j) {
      assert PhaseOk(c, replies, j);
    }
  }

  lemma SettleIsSound(c: Client, replies: seq<bool>, i: nat)
    requires ClientOk(c, replies) && c.active == Some(i)
    requires Resolved(c.posted, replies, i, |c.posted|)
    ensures ClientOk(Settle(c, i), replies)
  {
    var d := Settle(c, i);
    forall j | 0 <= j < |d.txs| ensures PhaseOk(d, replies, j) {
      assert PhaseOk(c, replies, j);
    }
  }

  lemma OwnPostIsSound(c: Client, replies: seq<bool>, i: nat, phase: Phase, m: Msg)
    requires ClientOk(c, replies) && c.active == Some(i) && !Closed(c)
    requires || (m == Commit(i) && phase == Committing(|c.posted|))
             || (m == Rollback(i) && phase == RollingBack(|c.posted|))
    ensures ClientOk(Send(InPhase(c, i, phase), m), replies)
  {
    var d := Send(InPhase(c, i, phase), m);
    assert PhaseOk(c, replies, i);
    ActiveMayPost(c, replies, m);
    assert m.Rollback? ==> Ends(d.posted, replies, i, |c.posted|);
    PostIsSound(c, d, replies, i, m);
  }

  lemma FailIsSound(c: Client, replies: seq<bool>, i: nat)
    requires ClientOk(c, replies) && c.active == Some(i)
    ensures ClientOk(Fail(c, i), replies)
  {
    assert PhaseOk(c, replies, i);
    if c.txs[i].ended.EndedByClose? {
      SettleIsSound(c, replies, i);
    } else {
      OwnPostIsSound(c, replies, i, RollingBack(|c.posted|), Rollback(i));
    }
  }

  lemma HandleGivenIsSound(c: Client, replies: seq<bool>, i: nat)
    requires ClientOk(c, replies) && c.active == Some(i)
    ensures ClientOk(SetTx(c, i, c.txs[i].(phase := Working, given := true)), replies)
  {
    var d := SetTx(c, i, c.txs[i].(phase := Working, given := true));
    forall j | 0 <= j < |d.txs| ensures PhaseOk(d, replies, j) {
      assert PhaseOk(c, replies, j);
    }
  }

  lemma AdvanceIsSound(s: System, e: Step)
    requires ClientOk(s.client, s.replies) && e.Advance? && Enabled(s, e)
    ensures ClientOk(Next(s, e).client, s.replies)
  {
    var c, i, ok := s.client, s.client.active.value, AdvanceOk(s, e);
    assert PhaseOk(c, s.replies, i);
    match c.txs[i].phase
    case Beginning(_) => if ok { HandleGivenIsSound(c, s.replies, i); } else { FailIsSound(c, s.replies, i); }
    case Working =>
      if ok && !c.txs[i].ended.EndedByClose? { OwnPostIsSound(c, s.replies, i, Committing(|c.posted|), Commit(i)); }
      else { FailIsSound(c, s.replies, i); }
    case Committing(k) =>
      if ok {
        assert Ends(c.posted, s.replies, i, k);
        SettleIsSound(c, s.replies, i);
      } else { FailIsSound(c, s.replies, i); }
    case RollingBack(_) => SettleIsSound(c, s.replies, i);
  }

  lemma CloseIsSound(c: Client, replies: seq<bool>)
    requires ClientOk(c, replies)
    ensures ClientOk(CloseStep(c), replies)
  {
    var d := CloseStep(c);
    if !Closed(c) {
      if c.active.None? {
        IdleMayPost(c, replies, CloseMsg);
        PostIsSound(c, d, replies, |c.txs|, CloseMsg);
      } else {
        var i := c.active.value;
        assert PhaseOk(c, replies, i);
        ActiveMayPost(c, replies, Rollback(i));
        assert Ends(d.posted, replies, i, |c.posted|);
        PostIsSound(c, d, replies, i, Rollback(i));
      }
    }
  }

  lemma ProceedIsSound(c: Client, replies: seq<bool>)
    requires ClientOk(c, replies)
    ensures ClientOk(CloseProceeds(c), replies)
  {
    var d := CloseProceeds(c);
    if c.closing.AwaitRollback? {
      var last := |c.posted| - 1;
      assert Ends(c.posted, replies, c.posted[last].i, last);
      PostIsSound(c, d, replies, |c.txs|, CloseMsg);
    } else {
      forall j | 0 <= j < |d.txs| ensures PhaseOk(d, replies, j) {
        assert PhaseOk(c, replies, j);
      }
    }
  }

  // ----------------------------------------------------------------------- the line

  lemma {:induction false} DecsOfHead(line: seq<Item>)
    requires line != []
    ensures Decs(line) == Decs(line[1..]) + if line[0].Dec? then 1 else 0
  {
    if |line| > 1 {
      DecsOfHead(line[..|line| - 1]);
      assert line[..|line| - 1][1..] == line[1..][..|line| - 2];
    } else {
      assert line[1..] == [] && line[..0] == [];
    }
  }

  lemma DecsOfLast(line: seq<Item>, item: Item)
    ensures Decs(line + [item]) == Decs(line) + if item.Dec? then 1 else 0
  {
    assert (line + [item])[..|line|] == line;
  }

  /** While a transaction is queued or open the count is positive: no plain call is posted at once. */
  lemma CountCoversTransactions(c: Client)
    requires LineOk(c) && c.count == 0
    ensures c.active.None? && forall p :: 0 <= p < |c.line| ==> c.line[p].Post?
  {
    NoDecs(c.line);
    forall p | 0 <= p < |c.line| ensures c.line[p].Post? {
      assert !c.line[p].Dec?;
      assert p + 1 < |c.line| ==> !c.line[p + 1].Dec?;
    }
  }

  lemma {:induction false} NoDecs(line: seq<Item>)
    requires Decs(line) == 0
    ensures forall p :: 0 <= p < |line| ==> !line[p].Dec?
  {
    if line != [] {
      NoDecs(line[..|line| - 1]);
      assert forall p :: 0 <= p < |line| - 1 ==> line[p] == line[..|line| - 1][p];
    }
  }

  lemma CallKeepsLine(c: Client)
    requires LineOk(c)
    ensures LineOk(CallStep(c))
  {
    DecsOfLast(c.line, Post(c.calls));
  }

  lemma TransactCounts(line: seq<Item>, i: nat)
    ensures Decs(line + [Run(i), Dec(i)]) == Decs(line) + 1
  {
    DecsOfLast(line, Run(i));
    DecsOfLast(line + [Run(i)], Dec(i));
    assert line + [Run(i)] + [Dec(i)] == line + [Run(i), Dec(i)];
  }

  lemma TransactKeepsLine(c: Client)
    requires LineOk(c)
    ensures LineOk(TransactStep(c))
  {
    var d, n := TransactStep(c), |c.line|;
    if !Closed(c) {
      TransactCounts(c.line, |c.txs|);
      forall p | 0 <= p < |d.line| && d.line[p].Run?
        ensures d.line[p].i < |d.txs| && d.txs[d.line[p].i].phase.Queued?
                && p + 1 < |d.line| && d.line[p + 1] == Dec(d.line[p].i)
      {
        assert p < n ==> d.line[p] == c.line[p];
        assert p + 1 < n ==> d.line[p + 1] == c.line[p + 1];
        assert d.line[n] == Run(|c.txs|) && d.line[n + 1] == Dec(|c.txs|);
      }
    }
  }

  lemma ReactKeepsLine(c: Client)
    requires LineOk(c) && c.line != [] && c.active.None?
    ensures LineOk(ReactStep(c))
  {
    DecsOfHead(c.line);
    var d := ReactStep(c);
    assert d.line == c.line[1..];
    forall p | 0 <= p < |d.line| && d.line[p].Run?
      ensures d.line[p].i < |d.txs| && d.txs[d.line[p].i].phase.Queued?
              && p + 1 < |d.line| && d.line[p + 1] == Dec(d.line[p].i)
    {
      assert d.line[p] == c.line[p + 1];
    }
  }

  /** Steps that leave the line and the queued transactions alone. */
  lemma SameLine(c: Client, d: Client)
    requires LineOk(c) && d.line == c.line && d.count == c.count && |d.txs| == |c.txs|
    requires forall i :: 0 <= i < |c.txs| && c.txs[i].phase.Queued? ==> d.txs[i].phase.Queued?
    requires d.active.Some? ==> d.active == c.active
    ensures LineOk(d)
  {
  }

  // --------------------------------------------------------------- calls and reactions

  lemma CallIsSound(c: Client, replies: seq<bool>)
    requires LineOk(c) && ClientOk(c, replies)
    ensures ClientOk(CallStep(c), replies)
  {
    if !Closed(c) {
      if c.count == 0 {
        CountCoversTransactions(c);
        PlainPostIsSound(c, CallStep(c), replies, c.calls);
      } else {
        NoPostIsSound(c, CallStep(c), replies);
      }
    }
  }

  /** After `close()` nothing waits. */
  predicate ClosedOk(c: Client) {
    Closed(c) ==> c.waiting == {}
  }

  lemma ReactIsSound(c: Client, replies: seq<bool>)
    requires LineOk(c) && ClosedOk(c) && ClientOk(c, replies) && c.line != [] && c.active.None?
    ensures ClientOk(ReactStep(c), replies)
  {
    var d := ReactStep(c);
    match c.line[0]
    case Dec(_) => NoPostIsSound(c, d, replies);
    case Post(call) =>
      if call in c.waiting { PlainPostIsSound(c, d, replies, call); } else { NoPostIsSound(c, d, replies); }
    case Run(i) =>
      if Closed(c) { RefusedRunIsSound(c, replies, i, d); } else { BeginPostIsSound(c, replies, i, d); }
  }

  lemma ReplyKeepsClient(c: Client, replies: seq<bool>, ok: bool)
    requires ClientOk(c, replies) && |replies| < |c.posted|
    ensures ClientOk(c, replies + [ok])
  {
    forall k | 0 < k < |c.posted| && !Inner(c.posted[k]) && TxOf(c.posted[k - 1]).Some?
      ensures Resolved(c.posted, replies + [ok], TxOf(c.posted[k - 1]).value, k)
    {
      ResolvedStays(c.posted, c.posted, replies, replies + [ok], TxOf(c.posted[k - 1]).value, k, k);
    }
    forall i | 0 <= i < |c.txs| ensures PhaseOk(c, replies + [ok], i) {
      assert PhaseOk(c, replies, i);
      if Resolved(c.posted, replies, i, |c.posted|) {
        ResolvedStays(c.posted, c.posted, replies, replies + [ok], i, |c.posted|, |c.posted|);
      }
    }
  }

  // ---------------------------------------------------------------------- the engine

  /** Unless the next message is the open transaction's own, nothing interactive is open. */
  lemma OuterMessagesFindItEnded(e: Engine, posted: seq<Msg>, replies: seq<bool>)
    requires EngineOk(e, posted, replies) && Bounded(posted, replies) && |replies| < |posted|
    requires !Inner(posted[|replies|])
    ensures !e.interactive
  {
  }

  lemma ResolvedIsTheSame(posted: seq<Msg>, replies: seq<bool>, ok: bool, i: nat)
    requires |replies| < |posted|
    ensures Resolved(posted, replies + [ok], i, |replies| + 1) <==>
              Resolved(posted, replies, i, |replies|) || Ends(posted, replies + [ok], i, |replies|)
  {
    assert forall j :: 0 <= j < |replies| ==> (Ends(posted, replies + [ok], i, j) <==> Ends(posted, replies, i, j));
  }

  lemma ServePlainIsSound(e: Engine, posted: seq<Msg>, replies: seq<bool>, o: Outcome)
    requires EngineOk(e, posted, replies) && Bounded(posted, replies) && |replies| < |posted|
    requires posted[|replies|].Plain?
    ensures EngineOk(PlainStep(e, posted[|replies|], o).0, posted, replies + [PlainStep(e, posted[|replies|], o).1])
  {
    OuterMessagesFindItEnded(e, posted, replies);
    assert AllPlain([posted[|replies|]]);
    assert AllPlain(e.pending + [posted[|replies|]]);
  }

  lemma ServeBeginIsSound(e: Engine, posted: seq<Msg>, replies: seq<bool>, o: Outcome)
    requires EngineOk(e, posted, replies) && Bounded(posted, replies) && FreshBegins(posted) && |replies| < |posted|
    requires posted[|replies|].Begin?
    ensures EngineOk(BeginStep(e, o).0, posted, replies + [BeginStep(e, o).1])
  {
    OuterMessagesFindItEnded(e, posted, replies);
    var n, i := |replies|, posted[|replies|].i;
    ResolvedIsTheSame(posted, replies, BeginStep(e, o).1, i);
    assert forall j :: 0 <= j < n ==> TxOf(posted[j]) != Some(i);
    assert forall j :: 0 <= j < n ==> !Ends(posted, replies, i, j);
  }

  lemma ServeOwnIsSound(e: Engine, posted: seq<Msg>, replies: seq<bool>, o: Outcome)
    requires EngineOk(e, posted, replies) && Adjacent(posted) && |replies| < |posted|
    requires posted[|replies|].Own?
    ensures EngineOk(OwnStep(e, posted[|replies|], o).0, posted, replies + [OwnStep(e, posted[|replies|], o).1])
  {
    var m := posted[|replies|];
    assert Inner(m);
    ResolvedIsTheSame(posted, replies, OwnStep(e, m, o).1, m.i);
  }

  lemma ServeCommitIsSound(e: Engine, posted: seq<Msg>, replies: seq<bool>, o: Outcome)
    requires EngineOk(e, posted, replies) && Adjacent(posted) && |replies| < |posted|
    requires posted[|replies|].Commit?
    ensures EngineOk(CommitStep(e, o).0, posted, replies + [CommitStep(e, o).1])
  {
    var m := posted[|replies|];
    assert Inner(m);
    ResolvedIsTheSame(posted, replies, CommitStep(e, o).1, m.i);
    assert e.interactive ==> Pure(e.pending);
  }

  lemma ServeIsSound(e: Engine, posted: seq<Msg>, replies: seq<bool>, o: Outcome)
    requires EngineOk(e, posted, replies) && Adjacent(posted) && Bounded(posted, replies) && FreshBegins(posted)
    requires |replies| < |posted|
    ensures var (f, ok) := Serve(e, posted[|replies|], o); EngineOk(f, posted, replies + [ok])
  {
    match posted[|replies|]
    case Plain(_) => ServePlainIsSound(e, posted, replies, o);
    case Begin(_, _) => ServeBeginIsSound(e, posted, replies, o);
    case Own(_, _) => ServeOwnIsSound(e, posted, replies, o);
    case Commit(_) => ServeCommitIsSound(e, posted, replies, o);
    case Rollback(_) =>
    case CloseMsg => OuterMessagesFindItEnded(e, posted, replies);
  }

  // ------------------------------------------------------------------ every step is sound

  predicate Posts(c: Client, d: Client) {
    c.posted <= d.posted && |d.posted| <= |c.posted| + 1
  }

  lemma EngineSeesPost(e: Engine, c: Client, d: Client, replies: seq<bool>)
    requires EngineOk(e, c.posted, replies) && Posts(c, d)
    ensures EngineOk(e, d.posted, replies)
  {
    if d.posted != c.posted {
      assert d.posted == c.posted + [d.posted[|c.posted|]];
      PostKeepsEngine(e, c.posted, replies, d.posted[|c.posted|]);
    }
  }

  predicate Complete(s: System) {
    Sound(s) && ClosedOk(s.client)
  }

  predicate Kept(c: Client, d: Client, replies: seq<bool>) {
    LineOk(d) && ClosedOk(d) && ClientOk(d, replies) && Posts(c, d)
  }

  lemma KeptByCall(c: Client, replies: seq<bool>)
    requires LineOk(c) && ClosedOk(c) && ClientOk(c, replies)
    ensures Kept(c, CallStep(c), replies)
  {
    CallIsSound(c, replies);
    CallKeepsLine(c);
  }

  lemma KeptByTransact(c: Client, replies: seq<bool>)
    requires LineOk(c) && ClosedOk(c) && ClientOk(c, replies)
    ensures Kept(c, TransactStep(c), replies)
  {
    TransactIsSound(c, replies);
    TransactKeepsLine(c);
  }

  lemma KeptByStatement(c: Client, replies: seq<bool>, i: nat)
    requires LineOk(c) && ClosedOk(c) && ClientOk(c, replies) && i < |c.txs| && c.txs[i].given
    ensures Kept(c, StatementStep(c, i), replies)
  {
    StatementIsSound(c, replies, i);
    SameLine(c, StatementStep(c, i));
  }

  lemma KeptByClose(c: Client, replies: seq<bool>)
    requires LineOk(c) && ClosedOk(c) && ClientOk(c, replies)
    ensures Kept(c, CloseStep(c), replies)
  {
    CloseIsSound(c, replies);
    SameLine(c, CloseStep(c));
  }

  lemma KeptByReact(c: Client, replies: seq<bool>)
    requires LineOk(c) && ClosedOk(c) && ClientOk(c, replies) && c.line != [] && c.active.None?
    ensures Kept(c, ReactStep(c), replies)
  {
    ReactIsSound(c, replies);
    ReactKeepsLine(c);
  }

  lemma AdvanceKeepsLine(c: Client, i: nat, ok: bool)
    requires LineOk(c) && i < |c.txs| && !c.txs[i].phase.Queued? && c.active == Some(i)
    ensures LineOk(AdvanceStep(c, i, ok)) && Posts(c, AdvanceStep(c, i, ok))
    ensures AdvanceStep(c, i, ok).waiting == c.waiting && AdvanceStep(c, i, ok).closing == c.closing
  {
    SameLine(c, AdvanceStep(c, i, ok));
  }

  lemma KeptByAdvance(s: System, e: Step)
    requires LineOk(s.client) && ClosedOk(s.client) && ClientOk(s.client, s.replies) && e.Advance? && Enabled(s, e)
    ensures Kept(s.client, Next(s, e).client, s.replies)
  {
    AdvanceIsSound(s, e);
    AdvanceKeepsLine(s.client, s.client.active.value, AdvanceOk(s, e));
  }

  lemma KeptByProceed(c: Client, replies: seq<bool>)
    requires LineOk(c) && ClosedOk(c) && ClientOk(c, replies)
    ensures Kept(c, CloseProceeds(c), replies)
  {
    ProceedIsSound(c, replies);
    SameLine(c, CloseProceeds(c));
  }

  lemma ClientStepIsSound(s: System, e: Step)
    requires Complete(s) && Enabled(s, e) && !e.ServeNext?
    ensures Kept(s.client, Next(s, e).client, s.replies)
  {
    match e
    case Call => KeptByCall(s.client, s.replies);
    case Transact => KeptByTransact(s.client, s.replies);
    case Statement(i) => KeptByStatement(s.client, s.replies, i);
    case Close => KeptByClose(s.client, s.replies);
    case React => KeptByReact(s.client, s.replies);
    case Advance(_) => KeptByAdvance(s, e);
    case ProceedClosing => KeptByProceed(s.client, s.replies);
  }

  lemma NextIsSound(s: System, e: Step)
    requires Complete(s) && Enabled(s, e)
    ensures Complete(Next(s, e))
  {
    if e.ServeNext? {
      ServeIsSound(s.engine, s.client.posted, s.replies, e.outcome);
      ReplyKeepsClient(s.client, s.replies, Serve(s.engine, s.client.posted[|s.replies|], e.outcome).1);
    } else {
      ClientStepIsSound(s, e);
      EngineSeesPost(s.engine, s.client, Next(s, e).client, s.replies);
    }
  }

  lemma {:induction false} RunIsSound(run: seq<Step>)
    ensures Complete(After(run))
  {
    if run != [] {
      RunIsSound(run[..|run| - 1]);
      if Enabled(After(run[..|run| - 1]), run[|run| - 1]) {
        NextIsSound(After(run[..|run| - 1]), run[|run| - 1]);
      }
    }
  }

  // ---------------------------------------------------------------------- isolation

  lemma {:induction false} BlockIsContiguous(posted: seq<Msg>, a: nat, b: nat, c: nat)
    requires Adjacent(posted) && FreshBegins(posted)
    requires a <= b <= c < |posted| && TxOf(posted[a]).Some? && TxOf(posted[a]) == TxOf(posted[c])
    ensures TxOf(posted[b]) == TxOf(posted[a])
    decreases c - b
  {
    if b < c {
      assert Inner(posted[c]);
      BlockIsContiguous(posted, a, b, c - 1);
    }
  }

  lemma {:induction false} BlockEndsFirst(posted: seq<Msg>, replies: seq<bool>, a: nat, b: nat)
    requires Adjacent(posted) && Bounded(posted, replies)
    requires a < b < |posted| && TxOf(posted[a]).Some? && TxOf(posted[b]) != TxOf(posted[a])
    ensures Resolved(posted, replies, TxOf(posted[a]).value, b)
    decreases b
  {
    if TxOf(posted[b - 1]) != TxOf(posted[a]) {
      BlockEndsFirst(posted, replies, a, b - 1);
      ResolvedStays(posted, posted, replies, replies, TxOf(posted[a]).value, b - 1, b);
    }
  }

  /** The messages of one transaction form one block: nothing else lies between them. */
  lemma TransactionsAreContiguous(run: seq<Step>, a: nat, b: nat, c: nat)
    requires a <= b <= c < |After(run).client.posted|
    requires TxOf(After(run).client.posted[a]).Some?
    requires TxOf(After(run).client.posted[a]) == TxOf(After(run).client.posted[c])
    ensures TxOf(After(run).client.posted[b]) == TxOf(After(run).client.posted[a])
  {
    RunIsSound(run);
    BlockIsContiguous(After(run).client.posted, a, b, c);
  }

  /** What follows a transaction's block follows its rollback, or its commit once that has succeeded. */
  lemma NothingForeignBeforeTheEnd(run: seq<Step>, a: nat, b: nat)
    requires a < b < |After(run).client.posted|
    requires TxOf(After(run).client.posted[a]).Some?
    requires TxOf(After(run).client.posted[b]) != TxOf(After(run).client.posted[a])
    ensures Resolved(After(run).client.posted, After(run).replies, TxOf(After(run).client.posted[a]).value, b)
  {
    RunIsSound(run);
    BlockEndsFirst(After(run).client.posted, After(run).replies, a, b);
  }

  /** Whatever is committed together is either plain calls or one transaction's own statements. */
  lemma CommitsAreIsolated(run: seq<Step>, g: nat)
    requires g < |After(run).engine.committed|
    ensures Pure(After(run).engine.committed[g])
  {
    RunIsSound(run);
  }

  /**
   * A statement sent through a handle either runs inside the transaction of that handle, while that
   * is open and has not ended, or commits nothing: also when it is sent after the callback settled.
   */
  lemma StatementsRunOnlyInside(run: seq<Step>, o: Outcome)
    requires |After(run).replies| < |After(run).client.posted|
    requires After(run).client.posted[|After(run).replies|].Own?
    ensures var s := After(run);
            var i := s.client.posted[|s.replies|].i;
            var (after, ok) := Serve(s.engine, s.client.posted[|s.replies|], o);
            && after.committed == s.engine.committed
            && (ok ==> s.engine.open && s.engine.interactive && AllOwn(after.pending, i)
                       && !Resolved(s.client.posted, s.replies, i, |s.replies|))
            && (!ok ==> after.pending == s.engine.pending || after.pending == [])
  {
    RunIsSound(run);
    var s := After(run);
    assert Inner(s.client.posted[|s.replies|]);
  }

  /** Once a transaction has been rolled back or committed its handle does nothing any more. */
  lemma LateStatementsAreRefused(run: seq<Step>, o: Outcome)
    requires |After(run).replies| < |After(run).client.posted|
    requires After(run).client.posted[|After(run).replies|].Own?
    requires Resolved(After(run).client.posted, After(run).replies,
                      After(run).client.posted[|After(run).replies|].i, |After(run).replies|)
    ensures var (after, ok) := Serve(After(run).engine, After(run).client.posted[|After(run).replies|], o);
            !ok && after.pending == After(run).engine.pending && after.committed == After(run).engine.committed
  {
    RunIsSound(run);
    var s := After(run);
    assert Inner(s.client.posted[|s.replies|]);
  }

  /** A plain call, another transaction's begin and the close find no interactive transaction open. */
  lemma OthersFindItEnded(run: seq<Step>)
    requires |After(run).replies| < |After(run).client.posted|
    requires !Inner(After(run).client.posted[|After(run).replies|])
    ensures !After(run).engine.interactive && AllPlain(After(run).engine.pending)
  {
    RunIsSound(run);
    OuterMessagesFindItEnded(After(run).engine, After(run).client.posted, After(run).replies);
  }
}
