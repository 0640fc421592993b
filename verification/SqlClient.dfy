/**
 * The main-thread proxy of the SQL Worker (src/sql/client.ts) together with the Worker behind it.
 * Requests, replies, settling callbacks and `close()` interleave in any order; the promise chain
 * `#tail` is the line of reactions that run one after the other and stop behind an open transaction.
 */
module SqlClient {
  import opened Prelude
  import opened SqlEngine

  /** A reaction chained on `#tail`: post a waiting call, start a transaction, or count it out. */
  datatype Item = Post(c: nat) | Run(i: nat) | Dec(i: nat)

  datatype Ended = Live | Finished | EndedByClose

  /** Where `#interactive` is; `k` is the message whose reply it awaits. */
  datatype Phase = Queued | Beginning(k: nat) | Working | Committing(k: nat) | RollingBack(k: nat) | Over

  /** `given`: the callback has been called with the handle. */
  datatype Tx = Tx(call: nat, phase: Phase, ended: Ended, given: bool)

  datatype Closing = NotClosing | AwaitRollback(k: nat) | AwaitClose(k: nat) | Terminated

  datatype Client = Client(
    closing: Closing, count: int, waiting: set<nat>, line: seq<Item>, active: Option<nat>,
    txs: seq<Tx>, calls: nat, posted: seq<Msg>)

  const IDLE: Client := Client(NotClosing, 0, {}, [], None, [], 0, [])

  predicate Closed(s: Client) {
    !s.closing.NotClosing?
  }

  // -------------------------------------------------------------------- the code

  function Send(s: Client, m: Msg): Client {
    s.(posted := s.posted + [m])
  }

  /** `#call` */
  function CallStep(s: Client): Client {
    if Closed(s) then s
    else if s.count == 0 then Send(s, Plain(s.calls)).(calls := s.calls + 1)
    else s.(waiting := s.waiting + {s.calls}, line := s.line + [Post(s.calls)], calls := s.calls + 1)
  }

  /** `transaction(work)` and `#exclusive` */
  function TransactStep(s: Client): Client {
    if Closed(s) then s
    else
      s.(count := s.count + 1, line := s.line + [Run(|s.txs|), Dec(|s.txs|)],
         txs := s.txs + [Tx(s.calls, Queued, Live, false)], calls := s.calls + 1)
  }

  /** A statement through the handle. */
  function StatementStep(s: Client, i: nat): Client
    requires i < |s.txs|
  {
    if s.txs[i].ended.Live? then Send(s, Own(i, s.calls)).(calls := s.calls + 1) else s
  }

  function SetTx(s: Client, i: nat, x: Tx): Client
    requires i < |s.txs|
  {
    s.(txs := s.txs[i := x])
  }

  function InPhase(s: Client, i: nat, phase: Phase): Client
    requires i < |s.txs|
  {
    SetTx(s, i, s.txs[i].(phase := phase))
  }

  function CloseStep(s: Client): Client {
    if Closed(s) then s
    else
      var t := s.(waiting := {});
      match s.active
      case None => Send(t, CloseMsg).(closing := AwaitClose(|s.posted|))
      case Some(i) =>
        if i >= |s.txs| then t
        else
          Send(SetTx(t, i,
                        s.txs[i].(ended := if s.txs[i].ended.Live? then EndedByClose else s.txs[i].ended)), Rollback(i))
          .(closing := AwaitRollback(|s.posted|))
  }

  function CloseProceeds(s: Client): Client {
    match s.closing
    case AwaitRollback(_) => Send(s, CloseMsg).(closing := AwaitClose(|s.posted|))
    case AwaitClose(_) => s.(closing := Terminated)
    case _ => s
  }

  /** The next reaction of the chain. */
  function ReactStep(s: Client): Client
    requires s.line != []
  {
    var t := s.(line := s.line[1..]);
    match s.line[0]
    case Dec(_) => t.(count := s.count - 1)
    case Post(c) => if c in s.waiting then Send(t, Plain(c)).(waiting := s.waiting - {c}) else t
    case Run(i) =>
      if i >= |s.txs| then t
      else if Closed(s) then SetTx(t, i, s.txs[i].(phase := Over, ended := Finished))
      else Send(InPhase(t, i, Beginning(|s.posted|)), Begin(i, s.txs[i].call)).(active := Some(i))
  }

  /** The `finally` of `#interactive`. */
  function Settle(s: Client, i: nat): Client
    requires i < |s.txs|
  {
    SetTx(s, i, s.txs[i].(phase := Over, ended := if s.txs[i].ended.Live? then Finished else s.txs[i].ended))
    .(active := None)
  }

  /** The `catch` of `#interactive`. */
  function Fail(s: Client, i: nat): Client
    requires i < |s.txs|
  {
    if s.txs[i].ended.EndedByClose? then Settle(s, i)
    else Send(InPhase(s, i, RollingBack(|s.posted|)), Rollback(i))
  }

  /** The transaction's next await has settled. */
  function AdvanceStep(s: Client, i: nat, ok: bool): Client
    requires i < |s.txs|
  {
    match s.txs[i].phase
    case Beginning(_) => if ok then SetTx(s, i, s.txs[i].(phase := Working, given := true)) else Fail(s, i)
    case Working =>
      if ok && !s.txs[i].ended.EndedByClose? then Send(InPhase(s, i, Committing(|s.posted|)), Commit(i)) else Fail(s, i)
    case Committing(_) => if ok then Settle(s, i) else Fail(s, i)
    case RollingBack(_) => Settle(s, i)
    case _ => s
  }

  /** The proxy's methods and reactions, field by field. */
  class WorkerSqlDatabase {
    var closing: Closing
    var exclusiveCount: int
    var waiting: set<nat>
    var line: seq<Item>
    var activeTransaction: Option<nat>
    var transactions: seq<Tx>
    var calls: nat
    var posted: seq<Msg>

    ghost function Value(): Client
      reads this
    {
      Client(closing, exclusiveCount, waiting, line, activeTransaction, transactions, calls, posted)
    }

    constructor ()
      ensures Value() == IDLE
    {
      closing, exclusiveCount, waiting, line := NotClosing, 0, {}, [];
      activeTransaction, transactions, calls, posted := None, [], 0, [];
    }

    method Call()
      modifies this
      ensures Value() == CallStep(old(Value()))
    {
      if !closing.NotClosing? {
        return;
      }
      if exclusiveCount == 0 {
        posted := posted + [Plain(calls)];
      } else {
        waiting := waiting + {calls};
        line := line + [Post(calls)];
      }
      calls := calls + 1;
    }

    method Transaction()
      modifies this
      ensures Value() == TransactStep(old(Value()))
    {
      if !closing.NotClosing? {
        return;
      }
      exclusiveCount := exclusiveCount + 1;
      line := line + [Run(|transactions|), Dec(|transactions|)];
      transactions := transactions + [Tx(calls, Queued, Live, false)];
      calls := calls + 1;
    }

    method Statement(i: nat)
      requires i < |transactions|
      modifies this
      ensures Value() == StatementStep(old(Value()), i)
    {
      if transactions[i].ended.Live? {
        posted, calls := posted + [Own(i, calls)], calls + 1;
      }
    }

    method Close()
      requires activeTransaction.Some? ==> activeTransaction.value < |transactions|
      modifies this
      ensures Value() == CloseStep(old(Value()))
    {
      if !closing.NotClosing? {
        return;
      }
      waiting := {};
      if activeTransaction.Some? {
        var i := activeTransaction.value;
        if transactions[i].ended.Live? {
          transactions := transactions[i := transactions[i].(ended := EndedByClose)];
        }
        closing, posted := AwaitRollback(|posted|), posted + [Rollback(i)];
      } else {
        closing, posted := AwaitClose(|posted|), posted + [CloseMsg];
      }
    }

    method React()
      requires line != []
      modifies this
      ensures Value() == ReactStep(old(Value()))
    {
      var item := line[0];
      line := line[1..];
      match item {
        case Dec(_) => exclusiveCount := exclusiveCount - 1;
        case Post(c) =>
          if c in waiting {
            waiting, posted := waiting - {c}, posted + [Plain(c)];
          }
        case Run(i) =>
          if i < |transactions| {
            if !closing.NotClosing? {
              transactions := transactions[i := transactions[i].(phase := Over, ended := Finished)];
            } else {
              transactions := transactions[i := transactions[i].(phase := Beginning(|posted|))];
              posted, activeTransaction := posted + [Begin(i, transactions[i].call)], Some(i);
            }
          }
      }
    }

    method Finish(i: nat)
      requires i < |transactions|
      modifies this
      ensures Value() == Settle(old(Value()), i)
    {
      var x := transactions[i];
      transactions := transactions[i := x.(phase := Over, ended := if x.ended.Live? then Finished else x.ended)];
      activeTransaction := None;
    }

    method Interactive(i: nat, ok: bool)
      requires i < |transactions|
      modifies this
      ensures Value() == AdvanceStep(old(Value()), i, ok)
    {
      var x := transactions[i];
      if x.phase.Beginning? && ok {
        transactions := transactions[i := x.(phase := Working, given := true)];
      } else if x.phase.Working? && ok && !x.ended.EndedByClose? {
        transactions := transactions[i := x.(phase := Committing(|posted|))];
        posted := posted + [Commit(i)];
      } else if x.phase.RollingBack? || (x.phase.Committing? && ok) {
        Finish(i);
      } else if !x.phase.Queued? && !x.phase.Over? {
        if x.ended.EndedByClose? {
          Finish(i);
        } else {
          transactions := transactions[i := x.(phase := RollingBack(|posted|))];
          posted := posted + [Rollback(i)];
        }
      }
    }
  }

  // ------------------------------------------------------------ proxy and Worker

  /** `replies[k]` is whether message `k` succeeded; the Worker serves them in order. */
  datatype System = System(client: Client, engine: Engine, replies: seq<bool>)

  const START: System := System(IDLE, SqlEngine.START, [])

  datatype Step =
    | Call
    | Transact
    | Statement(i: nat)
    | Close
    | React
    | Advance(workOk: bool)
    | ProceedClosing
    | ServeNext(outcome: Outcome)

  /** The message whose reply the transaction awaits. */
  function Awaits(phase: Phase): Option<nat> {
    if phase.Beginning? || phase.Committing? || phase.RollingBack? then Some(phase.k) else None
  }

  predicate Enabled(s: System, e: Step) {
    match e
    case Call => true
    case Transact => true
    case Close => true
    case Statement(i) => i < |s.client.txs| && s.client.txs[i].given
    case React => s.client.line != [] && s.client.active.None?
    case Advance(_) =>
      && s.client.active.Some? && s.client.active.value < |s.client.txs|
      && var phase := s.client.txs[s.client.active.value].phase;
         (Awaits(phase).Some? ==> Awaits(phase).value < |s.replies|)
    case ProceedClosing =>
      || (s.client.closing.AwaitRollback? && s.client.closing.k < |s.replies|)
      || (s.client.closing.AwaitClose? && s.client.closing.k < |s.replies|)
    case ServeNext(_) => |s.replies| < |s.client.posted|
  }

  function AdvanceOk(s: System, e: Step): bool
    requires e.Advance? && Enabled(s, e)
  {
    var phase := s.client.txs[s.client.active.value].phase;
    if Awaits(phase).Some? then s.replies[Awaits(phase).value] else e.workOk
  }

  function Next(s: System, e: Step): System
    requires Enabled(s, e)
  {
    match e
    case Call => s.(client := CallStep(s.client))
    case Transact => s.(client := TransactStep(s.client))
    case Statement(i) => s.(client := StatementStep(s.client, i))
    case Close => s.(client := CloseStep(s.client))
    case React => s.(client := ReactStep(s.client))
    case Advance(_) => s.(client := AdvanceStep(s.client, s.client.active.value, AdvanceOk(s, e)))
    case ProceedClosing => s.(client := CloseProceeds(s.client))
    case ServeNext(outcome) =>
      var (engine, ok) := Serve(s.engine, s.client.posted[|s.replies|], outcome);
      System(s.client, engine, s.replies + [ok])
  }

  function After(run: seq<Step>): System {
    if run == [] then START
    else
      var before := After(run[..|run| - 1]);
      if Enabled(before, run[|run| - 1]) then Next(before, run[|run| - 1]) else before
  }
}
