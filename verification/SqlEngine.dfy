/**
 * The Worker's SQL engine (src/sql/engine.ts) and its one-at-a-time request queue
 * (src/sql/handler.ts): what each message does to the connection's transaction.
 */
module SqlEngine {
  import opened Prelude

  /** What the main thread posts. `c` numbers the calls, `i` the interactive transactions. */
  datatype Msg =
    | Plain(c: nat)
    | Begin(i: nat, c: nat)
    | Own(i: nat, c: nat)          // tx-exec or tx-query
    | Commit(i: nat)
    | Rollback(i: nat)
    | CloseMsg

  /** `open` is SQLite's own state (autocommit off); `interactive` the engine's flag beside it. */
  datatype Engine = Engine(open: bool, interactive: bool, pending: seq<Msg>, committed: seq<seq<Msg>>)

  const START: Engine := Engine(false, false, [], [])

  /** What SQLite does with a statement: it may also fail, or end the transaction by itself. */
  datatype Outcome = Runs | Fails | EndsTransaction | CommitsIt | OpensOne

  // -------------------------------------------------------------------- operations

  /** A plain call: SQL of the caller's own, BEGIN and COMMIT included. */
  function PlainStep(e: Engine, m: Msg, o: Outcome): (Engine, bool) {
    match o
    case Fails => (e, false)
    case Runs => (if e.open then e.(pending := e.pending + [m]) else e.(committed := e.committed + [[m]]), true)
    case EndsTransaction => (e.(open := false, pending := []), false)
    case CommitsIt =>
      (if e.open then e.(open := false, pending := [], committed := e.committed + [e.pending + [m]])
       else e.(committed := e.committed + [[m]]), true)
    case OpensOne => (if e.open then e else e.(open := true, pending := [m]), !e.open)
  }

  /** BEGIN IMMEDIATE throws inside a transaction, and when the database is busy. */
  function BeginStep(e: Engine, o: Outcome): (Engine, bool) {
    if e.open || !o.Runs? then (e, false)
    else (e.(open := true, interactive := true, pending := []), true)
  }

  /** Refused unless the interactive transaction is still open; transaction control is denied. */
  function OwnStep(e: Engine, m: Msg, o: Outcome): (Engine, bool) {
    if !e.interactive || !e.open then (e.(interactive := false), false)
    else
      match o
      case Fails => (e, false)
      case EndsTransaction => (e.(open := false, interactive := false, pending := []), false)
      case _ => (e.(pending := e.pending + [m]), true)
  }

  /** A failed COMMIT may leave the transaction open for the rollback that follows. */
  function CommitStep(e: Engine, o: Outcome): (Engine, bool) {
    if !e.interactive || !e.open then (e.(interactive := false), false)
    else
      match o
      case Fails => (e, false)
      case EndsTransaction => (e.(open := false, interactive := false, pending := []), false)
      case _ => (e.(open := false, interactive := false, pending := [], committed := e.committed + [e.pending]), true)
  }

  function RollbackStep(e: Engine): (Engine, bool) {
    (e.(open := false, interactive := false, pending := if e.open then [] else e.pending), true)
  }

  function Serve(e: Engine, m: Msg, o: Outcome): (Engine, bool) {
    match m
    case Plain(_) => PlainStep(e, m, o)
    case Begin(_, _) => BeginStep(e, o)
    case Own(_, _) => OwnStep(e, m, o)
    case Commit(_) => CommitStep(e, o)
    case Rollback(_) => RollbackStep(e)
    case CloseMsg => (e.(open := false, pending := []), true)
  }

  class Connection {
    var open: bool
    var interactive: bool
    var pending: seq<Msg>
    var committed: seq<seq<Msg>>

    ghost function Value(): Engine
      reads this
    {
      Engine(open, interactive, pending, committed)
    }

    constructor ()
      ensures Value() == START
    {
      open, interactive, pending, committed := false, false, [], [];
    }

    /** `begin()`: the flag is set only after SQLite has accepted BEGIN IMMEDIATE. */
    method BeginTransaction(o: Outcome) returns (ok: bool)
      modifies this
      ensures (Value(), ok) == BeginStep(old(Value()), o)
    {
      if open || !o.Runs? {
        return false;
      }
      open, pending := true, [];
      interactive := true;
      return true;
    }

    method RequireOpenTransaction() returns (ok: bool)
      modifies this`interactive
      ensures ok == (old(interactive) && open)
      ensures interactive == ok
    {
      ok := interactive && open;
      if !ok {
        interactive := false;
      }
    }

    method TxExec(m: Msg, o: Outcome) returns (ok: bool)
      modifies this
      ensures (Value(), ok) == OwnStep(old(Value()), m, o)
    {
      ok := RequireOpenTransaction();
      if !ok {
        return;
      }
      match o {
        case Fails => ok := false;
        case EndsTransaction => open, pending, ok := false, [], false;
        case _ => pending := pending + [m];
      }
      if !open {
        interactive := false;
      }
    }

    method CommitTransaction(o: Outcome) returns (ok: bool)
      modifies this
      ensures (Value(), ok) == CommitStep(old(Value()), o)
    {
      ok := RequireOpenTransaction();
      if !ok {
        return;
      }
      match o {
        case Fails => ok := false;
        case EndsTransaction => open, pending, ok := false, [], false;
        case _ => open, pending, committed := false, [], committed + [pending];
      }
      interactive := open;
    }

    method RollbackTransaction() returns (ok: bool)
      modifies this
      ensures (Value(), ok) == RollbackStep(old(Value()))
    {
      interactive := false;
      if open {
        open, pending := false, [];
      }
      return true;
    }

    /** `exec` and the other plain calls: whatever SQLite makes of the caller's own SQL. */
    method Exec(m: Msg, o: Outcome) returns (ok: bool)
      modifies this
      ensures (Value(), ok) == PlainStep(old(Value()), m, o)
    {
      ok := true;
      match o {
        case Fails => ok := false;
        case Runs =>
          if open { pending := pending + [m]; } else { committed := committed + [[m]]; }
        case EndsTransaction => open, pending, ok := false, [], false;
        case CommitsIt =>
          if open {
            open, pending, committed := false, [], committed + [pending + [m]];
          } else {
            committed := committed + [[m]];
          }
        case OpensOne =>
          ok := !open;
          if !open {
            open, pending := true, [m];
          }
      }
    }

    /** The handler's dispatch: one request at a time, in the order they arrived. */
    method Dispatch(m: Msg, o: Outcome) returns (ok: bool)
      modifies this
      ensures (Value(), ok) == Serve(old(Value()), m, o)
    {
      match m {
        case Plain(_) => ok := Exec(m, o);
        case Begin(_, _) => ok := BeginTransaction(o);
        case Own(_, _) => ok := TxExec(m, o);
        case Commit(_) => ok := CommitTransaction(o);
        case Rollback(_) => ok := RollbackTransaction();
        case CloseMsg => open, pending, ok := false, [], true;
      }
    }
  }
}
