/**
 * Which rollback floor a session of `ChunkDatabase` runs under (`#open`, `#migrateOnce` and their
 * helpers in src/engine/chunkDatabase.ts): the persisted one, the legacy one, or no session at all.
 */
module SessionFloor {
  import opened Prelude
  import Floor

  type Slots = seq<Option<Floor.Pointer>>

  /** What other contexts can see: the persisted row, whether its migration is done, the legacy slots. */
  datatype Disk = Disk(persisted: Option<Floor.Row>, done: bool, legacy: Slots)

  /** This Worker's own fields; `memory` is the row of its in-memory database. */
  datatype Worker = Worker(memory: Option<Floor.Row>, migrated: bool)

  datatype Opening = Throws | Persistent | MemoryInUse | MemoryOther

  /**
   * What the environment answers: how storage opened, whether the pool is on disk (None: cannot be
   * told), whether the migration's own state can be read, whether the legacy pointers can, whether the
   * floor can be written, and whether the bulk copy completes.
   */
  datatype Answers = Answers(
    opening: Opening, poolExists: Option<bool>, stateReadable: bool, readable: bool, writable: bool, copied: bool)

  /** The store operations run on; `refused` lets only an explicit reset run. */
  datatype Session = Failed | Opened(row: Floor.Row, inMemory: bool, refused: bool)

  // -------------------------------------------------------------------- the code

  /** `importLegacyFloor`: None is a LegacyFloorUnavailableError. */
  function ImportFloor(row: Floor.Row, legacy: Slots, a: Answers): Option<Floor.Row> {
    if !a.readable || !a.writable then None else Floor.WriteRow(row, Floor.MergeLegacy(row, legacy))
  }

  function RowOf(disk: Disk): Floor.Row {
    if disk.persisted.Some? then disk.persisted.value else Floor.EMPTY_ROW
  }

  function OpenMemory(w: Worker, disk: Disk, a: Answers): (Worker, Disk, Session) {
    if a.poolExists != Some(false) then (w, disk, Failed)
    else
      match ImportFloor(Floor.EMPTY_ROW, disk.legacy, a)
      case None => (w.(memory := None), disk, Opened(Floor.EMPTY_ROW, true, true))
      case Some(row) => (w.(memory := Some(row)), disk, Opened(row, true, false))
  }

  function OpenPersistent(w: Worker, disk: Disk, a: Answers): (Worker, Disk, Session) {
    var row := RowOf(disk);
    var there := disk.(persisted := Some(row));
    if w.migrated then (w, there, Opened(row, false, false))
    else if !a.stateReadable then (w, there, Opened(row, false, false))  // no more than a warning
    else if disk.done then (w.(migrated := true), there, Opened(row, false, false))
    else
      match ImportFloor(row, disk.legacy, a)
      case None => (w, there, Opened(row, false, true))
      case Some(merged) =>
        (if a.copied then w.(migrated := true) else w,
         Disk(Some(merged), a.copied, if a.copied then [] else disk.legacy),
         Opened(merged, false, false))
  }

  function OpenSession(w: Worker, disk: Disk, a: Answers): (Worker, Disk, Session) {
    if w.memory.Some? then (w, disk, Opened(w.memory.value, true, false))
    else
      match a.opening
      case Throws => (w, disk, Failed)
      case MemoryInUse => (w, disk, Failed)
      case MemoryOther => OpenMemory(w, disk, a)
      case Persistent => OpenPersistent(w, disk, a)
  }

  class ChunkDatabase {
    var memory: Option<Floor.Row>
    var migrated: bool

    ghost function Value(): Worker
      reads this
    {
      Worker(memory, migrated)
    }

    constructor ()
      ensures Value() == Worker(None, false)
    {
      memory, migrated := None, false;
    }

    /** `#migrateOnce`: only the floor is insisted on; whatever else throws is a warning. */
    method MigrateOnce(disk: Disk, a: Answers) returns (after: Disk, session: Session)
      requires memory.None?
      modifies this
      ensures (Value(), after, session) == OpenPersistent(old(Value()), disk, a)
    {
      var row := RowOf(disk);
      after := disk.(persisted := Some(row));
      if migrated {
        return after, Opened(row, false, false);
      }
      if !a.stateReadable {
        return after, Opened(row, false, false);
      }
      if disk.done {
        migrated := true;
        return after, Opened(row, false, false);
      }
      var merged := ImportFloor(row, disk.legacy, a);
      if merged.None? {
        return after, Opened(row, false, true);
      }
      after := Disk(merged, a.copied, disk.legacy);
      if a.copied {
        after := after.(legacy := []);
        migrated := true;
      }
      return after, Opened(merged.value, false, false);
    }

    method Open(disk: Disk, a: Answers) returns (after: Disk, session: Session)
      modifies this
      ensures (Value(), after, session) == OpenSession(old(Value()), disk, a)
    {
      if memory.Some? {
        return disk, Opened(memory.value, true, false);
      }
      match a.opening {
        case Throws => return disk, Failed;
        case MemoryInUse => return disk, Failed;
        case MemoryOther =>
          if a.poolExists != Some(false) {
            return disk, Failed;
          }
          memory := ImportFloor(Floor.EMPTY_ROW, disk.legacy, a);
          return disk, if memory.Some? then Opened(memory.value, true, false) else Opened(Floor.EMPTY_ROW, true, true);
        case Persistent =>
          after, session := MigrateOnce(disk, a);
      }
    }
  }

  // ------------------------------------------------------------------- enforcement

  /** The environment does not deny a pool that is there. */
  predicate Truthful(disk: Disk, a: Answers) {
    a.poolExists.Some? ==> a.poolExists.value == disk.persisted.Some?
  }

  predicate RowsOk(w: Worker, disk: Disk) {
    && (w.memory.Some? ==> Floor.Sound(w.memory.value))
    && (disk.persisted.Some? ==> Floor.Sound(disk.persisted.value))
  }

  /** Operations other than a reset run in this session. */
  predicate Runs(x: Session) {
    x.Opened? && !x.refused
  }

  /** The session's floor is not below any floor that existed when it opened. */
  predicate Enforced(x: Session, disk: Disk) {
    Runs(x) ==>
      && Floor.MaxSequence(disk.legacy) <= x.row.floor
      && (disk.persisted.Some? ==> disk.persisted.value.floor <= x.row.floor)
  }

  /** The session does not look at the legacy stores: an earlier one has, or the state cannot be read. */
  predicate Shortcut(w: Worker, disk: Disk, a: Answers) {
    w.memory.Some? || (a.opening.Persistent? && (w.migrated || !a.stateReadable || disk.done))
  }

  /** What the shortcut relies on: nothing higher has appeared since. */
  predicate NothingNewer(w: Worker, disk: Disk) {
    if w.memory.Some? then
      && Floor.MaxSequence(disk.legacy) <= w.memory.value.floor
      && (disk.persisted.Some? ==> disk.persisted.value.floor <= w.memory.value.floor)
    else Floor.MaxSequence(disk.legacy) <= RowOf(disk).floor
  }

  lemma ImportIsAStep(row: Floor.Row, legacy: Slots, a: Answers)
    requires ImportFloor(row, legacy, a).Some?
    ensures ImportFloor(row, legacy, a).value == Floor.Next(row, Floor.Step(Floor.MergeSlots(legacy), true))
    ensures ImportFloor(row, legacy, a).value.floor == Floor.MergeLegacy(row, legacy).floor
  {
  }

  lemma ImportCovers(row: Floor.Row, legacy: Slots, a: Answers)
    requires Floor.Sound(row) && ImportFloor(row, legacy, a).Some?
    ensures ImportFloor(row, legacy, a).value.floor == Max(row.floor, Floor.MaxSequence(legacy))
    ensures Floor.Sound(ImportFloor(row, legacy, a).value)
  {
    ImportIsAStep(row, legacy, a);
    Floor.MergeRaisesToMaximum(row, legacy);
    Floor.NextIsSound(row, Floor.Step(Floor.MergeSlots(legacy), true));
  }

  /**
   * Whatever the environment answers, as long as it is true: a session that looks at the floors itself
   * enforces them, and one that takes the shortcut enforces them exactly when nothing newer appeared.
   */
  lemma FloorsAreEnforcedExactly(w: Worker, disk: Disk, a: Answers)
    requires Truthful(disk, a) && RowsOk(w, disk)
    ensures Enforced(OpenSession(w, disk, a).2, disk) <==> (Shortcut(w, disk, a) ==> NothingNewer(w, disk))
  {
    if !Shortcut(w, disk, a) {
      if a.opening.MemoryOther? && ImportFloor(Floor.EMPTY_ROW, disk.legacy, a).Some? {
        ImportCovers(Floor.EMPTY_ROW, disk.legacy, a);
      } else if a.opening.Persistent? && ImportFloor(RowOf(disk), disk.legacy, a).Some? {
        ImportCovers(RowOf(disk), disk.legacy, a);
      }
    }
  }

  /** An in-memory session never runs beside a persisted database it has just been told of, or cannot tell. */
  lemma MemoryNeverRunsBesideThePool(w: Worker, disk: Disk, a: Answers)
    requires w.memory.None? && (a.opening.MemoryInUse? || (a.opening.MemoryOther? && a.poolExists != Some(false)))
    ensures OpenSession(w, disk, a) == (w, disk, Failed)
  {
  }

  /** Before the migration is done an unreadable or unwritable legacy floor leaves only the reset. */
  lemma UnreadableFloorRefuses(w: Worker, disk: Disk, a: Answers)
    requires !Shortcut(w, disk, a) && (!a.readable || !a.writable)
    ensures !Runs(OpenSession(w, disk, a).2)
  {
  }

  // --------------------------------------------------------------------- whole runs

  /** Several Workers over one disk. */
  datatype World = World(disk: Disk, workers: seq<Worker>)

  /** A session and the operations in it, or a write of the legacy slots by an older build. */
  datatype Step =
    | Run(w: nat, answers: Answers, ops: seq<Floor.Step>)
    | LegacyWrite(slots: Slots)

  function Work(w: Worker, disk: Disk, x: Session, ops: seq<Floor.Step>): (Worker, Disk) {
    if !Runs(x) then (w, disk)
    else
      var row := Floor.After(x.row, ops);
      if x.inMemory then (w.(memory := Some(row)), disk) else (w, disk.(persisted := Some(row)))
  }

  function Next(s: World, e: Step): World {
    match e
    case LegacyWrite(slots) => s.(disk := s.disk.(legacy := slots))
    case Run(w, a, ops) =>
      if w >= |s.workers| then s
      else
        var (worker, disk, x) := OpenSession(s.workers[w], s.disk, a);
        var (worked, left) := Work(worker, disk, x, ops);
        World(left, s.workers[w := worked])
  }

  function After(s: World, run: seq<Step>): (r: World)
    ensures |r.workers| == |s.workers|
  {
    if run == [] then s else Next(After(s, run[..|run| - 1]), run[|run| - 1])
  }

  /** New Workers over whatever earlier ones left. */
  function Start(workers: nat, disk: Disk): World {
    World(disk, seq(workers, _ => Worker(None, false)))
  }

  /** A migration that is done left nothing higher behind. */
  predicate DiskOk(disk: Disk) {
    && (disk.persisted.Some? ==> Floor.Sound(disk.persisted.value))
    && (disk.done ==> disk.persisted.Some? && Floor.MaxSequence(disk.legacy) <= disk.persisted.value.floor)
  }

  predicate NoneInMemory(s: World) {
    forall v :: 0 <= v < |s.workers| ==> s.workers[v].memory.None?
  }

  /** Nothing that some Worker has already looked at the legacy stores for is exceeded. */
  predicate NotAbove(s: World, slots: Slots) {
    && (s.disk.done ==> Floor.MaxSequence(slots) <= RowOf(s.disk).floor)
    && forall v :: 0 <= v < |s.workers| ==>
         && (s.workers[v].migrated ==> Floor.MaxSequence(slots) <= RowOf(s.disk).floor)
         && (s.workers[v].memory.Some? ==> Floor.MaxSequence(slots) <= s.workers[v].memory.value.floor)
  }

  /** The environment may answer anything that is true and readable. Only two things are excluded: that
      storage opens to one Worker while another one is in memory, and that an old build writes a pointer
      above a floor already in force. */
  predicate Allowed(s: World, e: Step) {
    match e
    case LegacyWrite(slots) => NotAbove(s, slots)
    case Run(w, a, _) =>
      && Truthful(s.disk, a)
      && (w < |s.workers| && s.workers[w].memory.None? && a.opening.Persistent? ==> a.stateReadable && NoneInMemory(s))
  }

  predicate AllAllowed(s: World, run: seq<Step>) {
    run == [] || (AllAllowed(s, run[..|run| - 1]) && Allowed(After(s, run[..|run| - 1]), run[|run| - 1]))
  }

  /** A Worker in memory has no pool beside it; one that has migrated has its floor on disk. */
  predicate WorkerOk(w: Worker, disk: Disk) {
    && (w.memory.Some? ==>
          && disk.persisted.None? && Floor.Sound(w.memory.value)
          && Floor.MaxSequence(disk.legacy) <= w.memory.value.floor)
    && (w.migrated ==> disk.persisted.Some? && Floor.MaxSequence(disk.legacy) <= disk.persisted.value.floor)
  }

  predicate Kept(s: World) {
    DiskOk(s.disk) && forall v :: 0 <= v < |s.workers| ==> WorkerOk(s.workers[v], s.disk)
  }

  /** No operation ever runs below a floor that existed when its session opened. */
  lemma EverySessionEnforces(s: World, e: Step)
    requires Kept(s) && Allowed(s, e) && e.Run? && e.w < |s.workers|
    ensures Enforced(OpenSession(s.workers[e.w], s.disk, e.answers).2, s.disk)
  {
    assert WorkerOk(s.workers[e.w], s.disk);
    FloorsAreEnforcedExactly(s.workers[e.w], s.disk, e.answers);
  }

  /** What a session in the database leaves to the other Workers. */
  predicate Grows(disk: Disk, later: Disk) {
    && later.persisted.Some? && RowOf(disk).floor <= RowOf(later).floor
    && Floor.MaxSequence(later.legacy) <= Floor.MaxSequence(disk.legacy)
  }

  lemma EmptyIsSound()
    ensures Floor.Sound(Floor.EMPTY_ROW)
  {
  }

  lemma OpsKeepRow(row: Floor.Row, ops: seq<Floor.Step>)
    requires Floor.Sound(row)
    ensures Floor.Sound(Floor.After(row, ops)) && row.floor <= Floor.After(row, ops).floor
  {
    Floor.RunFacts(row, ops, 0, |ops|);
    assert ops[..0] == [] && ops[..|ops|] == ops;
  }

  /** A session on the persistent database, with its operations. */
  lemma PersistentSession(w: Worker, disk: Disk, a: Answers, ops: seq<Floor.Step>)
    requires DiskOk(disk) && WorkerOk(w, disk) && w.memory.None? && a.opening.Persistent?
    ensures var (worker, there, x) := OpenSession(w, disk, a);
            var (worked, left) := Work(worker, there, x, ops);
            DiskOk(left) && Grows(disk, left) && worked.memory.None? && WorkerOk(worked, left)
  {
    EmptyIsSound();
    Floor.MaxSequenceBounds(disk.legacy);
    var row := RowOf(disk);
    if ImportFloor(row, disk.legacy, a).Some? {
      ImportCovers(row, disk.legacy, a);
    }
    var x := OpenSession(w, disk, a).2;
    OpsKeepRow(x.row, ops);
    assert Floor.MaxSequence([]) == -1;
  }

  /** A session in memory, with its operations: the disk is as it was. */
  lemma MemorySession(w: Worker, disk: Disk, a: Answers, ops: seq<Floor.Step>)
    requires DiskOk(disk) && WorkerOk(w, disk) && Truthful(disk, a)
    requires w.memory.Some? || !a.opening.Persistent?
    ensures var (worker, there, x) := OpenSession(w, disk, a);
            var (worked, left) := Work(worker, there, x, ops);
            left == disk && WorkerOk(worked, disk)
  {
    EmptyIsSound();
    if w.memory.None? && ImportFloor(Floor.EMPTY_ROW, disk.legacy, a).Some? {
      ImportCovers(Floor.EMPTY_ROW, disk.legacy, a);
    }
    var x := OpenSession(w, disk, a).2;
    if Runs(x) {
      OpsKeepRow(x.row, ops);
    }
  }

  lemma OtherWorkerOk(w: Worker, disk: Disk, later: Disk)
    requires WorkerOk(w, disk) && w.memory.None? && Grows(disk, later)
    ensures WorkerOk(w, later)
  {
  }

  lemma RunKeeps(s: World, w: nat, a: Answers, ops: seq<Floor.Step>)
    requires Kept(s) && Allowed(s, Run(w, a, ops)) && w < |s.workers|
    ensures Kept(Next(s, Run(w, a, ops)))
  {
    var t := Next(s, Run(w, a, ops));
    assert WorkerOk(s.workers[w], s.disk);
    if s.workers[w].memory.Some? || !a.opening.Persistent? {
      MemorySession(s.workers[w], s.disk, a, ops);
    } else {
      PersistentSession(s.workers[w], s.disk, a, ops);
      forall v | 0 <= v < |t.workers| ensures WorkerOk(t.workers[v], t.disk) {
        if v != w { OtherWorkerOk(s.workers[v], s.disk, t.disk); }
      }
    }
  }

  lemma NextKeeps(s: World, e: Step)
    requires Kept(s) && Allowed(s, e)
    ensures Kept(Next(s, e))
  {
    if e.Run? && e.w < |s.workers| {
      RunKeeps(s, e.w, e.answers, e.ops);
    }
  }

  lemma {:induction false} RunsKeep(workers: nat, disk: Disk, run: seq<Step>)
    requires DiskOk(disk) && AllAllowed(Start(workers, disk), run)
    ensures Kept(After(Start(workers, disk), run))
  {
    if run != [] {
      RunsKeep(workers, disk, run[..|run| - 1]);
      NextKeeps(After(Start(workers, disk), run[..|run| - 1]), run[|run| - 1]);
    }
  }

  /**
   * In every run of any number of Workers, whether storage opens, is refused or is in use from one
   * session to the next, and whatever is known of the pool: no operation but a reset runs on a store
   * whose floor is below a persisted or legacy floor that existed when its session opened.
   */
  lemma NoOperationBelowAnExistingFloor(workers: nat, disk: Disk, run: seq<Step>, w: nat, a: Answers)
    requires DiskOk(disk) && AllAllowed(Start(workers, disk), run)
    requires w < |After(Start(workers, disk), run).workers| && Allowed(After(Start(workers, disk), run), Run(w, a, []))
    ensures var s := After(Start(workers, disk), run);
            Enforced(OpenSession(s.workers[w], s.disk, a).2, s.disk)
  {
    RunsKeep(workers, disk, run);
    EverySessionEnforces(After(Start(workers, disk), run), Run(w, a, []));
  }

  // ------------------------------------------------------------ where the claim stops

  /** An origin without a database and without legacy stores. */
  const FRESH := Disk(None, false, [])

  function Answering(opening: Opening): Answers {
    Answers(opening, Some(false), true, true, true, true)
  }

  lemma AfterTwo(s: World, e: Step, f: Step)
    ensures After(s, [e, f]) == Next(Next(s, e), f)
  {
    assert [e, f][..1] == [e] && [e][..0] == [];
    assert After(s, []) == s;
    assert After(s, [e]) == Next(s, e);
  }

  /** One slot that holds a numbered release. */
  lemma OneSlot(p: Floor.Pointer)
    requires Floor.Sequenced(p)
    ensures Floor.MaxSequence([Some(p)]) == p.sequence.v
  {
    assert [Some(p)][..0] == [];
  }

  /** After the migration a higher floor that an older build writes is not looked at any more. */
  lemma ALaterLegacyFloorIsIgnored(p: Floor.Pointer, a: Answers)
    requires Floor.Sequenced(p) && a.opening.Persistent?
    ensures var s := After(Start(1, FRESH), [Run(0, Answering(Persistent), []), LegacyWrite([Some(p)])]);
            var x := OpenSession(s.workers[0], s.disk, a).2;
            Truthful(FRESH, Answering(Persistent)) && Runs(x) && !Enforced(x, s.disk)
  {
    AfterTwo(Start(1, FRESH), Run(0, Answering(Persistent), []), LegacyWrite([Some(p)]));
    OneSlot(p);
  }

  /** A Worker that went to memory does not notice a database that opened to another one since. */
  lemma MemoryBesideALaterPool(p: Floor.Pointer, a: Answers)
    requires Floor.Sequenced(p)
    ensures var promote := Floor.Step(Floor.Promote(p, true), true);
            var s := After(Start(2, FRESH),
                           [Run(0, Answering(MemoryOther), []), Run(1, Answering(Persistent), [promote])]);
            var x := OpenSession(s.workers[0], s.disk, a).2;
            && Truthful(FRESH, Answering(MemoryOther)) && Truthful(FRESH, Answering(Persistent))
            && Runs(x) && !Enforced(x, s.disk)
  {
    var promote := Floor.Step(Floor.Promote(p, true), true);
    AfterTwo(Start(2, FRESH), Run(0, Answering(MemoryOther), []), Run(1, Answering(Persistent), [promote]));
    assert [promote][..0] == [];
    assert Floor.After(Floor.EMPTY_ROW, [promote]) == Floor.Next(Floor.EMPTY_ROW, promote);
  }

  /** When the migration's state cannot be read the session runs without the legacy floor. */
  lemma AnUnreadableStateSkipsTheFloor(p: Floor.Pointer, a: Answers)
    requires Floor.Sequenced(p) && a.opening.Persistent? && !a.stateReadable
    ensures var disk := FRESH.(legacy := [Some(p)]);
            var x := OpenSession(Start(1, disk).workers[0], disk, a).2;
            Runs(x) && !Enforced(x, disk)
  {
    OneSlot(p);
  }

  // ------------------------------------------------------------------- what a session is

  /** The legacy floor has to be looked at, and can be. */
  predicate CanImport(a: Answers) {
    a.readable && a.writable
  }

  lemma ImportsExactly(row: Floor.Row, legacy: Slots, a: Answers)
    requires Floor.Sound(row)
    ensures ImportFloor(row, legacy, a).Some? <==> CanImport(a)
  {
    Floor.TriggerNeverFires(row, Floor.MergeSlots(legacy));
  }

  /**
   * For every answer of the environment: when operations run, on which database, on which floor; when only the
   * reset does; and what is left of the migration.
   */
  lemma SessionsExactly(w: Worker, disk: Disk, a: Answers)
    requires RowsOk(w, disk)
    ensures var (v, d, x) := OpenSession(w, disk, a);
            var looks := !Shortcut(w, disk, a);
            var memory := w.memory.Some? || (a.opening.MemoryOther? && a.poolExists == Some(false));
            var opens := memory || (w.memory.None? && a.opening.Persistent?);
            && (x.Opened? <==> opens)
            && (Runs(x) <==> opens && (looks ==> CanImport(a)))
            && (x.Opened? ==> (x.inMemory <==> memory))
            && (Runs(x) && looks ==>
                  x.row.floor == Max(if memory then -1 else RowOf(disk).floor, Floor.MaxSequence(disk.legacy)))
            && (Runs(x) && !looks ==> x.row == if memory then w.memory.value else RowOf(disk))
            && (d.done <==> disk.done || (Runs(x) && looks && !memory && a.copied))
            && d.legacy == (if d.done && !disk.done then [] else disk.legacy)
            && (v.memory == if Runs(x) && memory then Some(x.row) else w.memory)
            && (v.migrated <==> w.migrated || (w.memory.None? && a.opening.Persistent? && a.stateReadable
                                               && (disk.done || (CanImport(a) && a.copied))))
            && (d.persisted == if x.Opened? && !memory then Some(x.row) else disk.persisted)
  {
    if !Shortcut(w, disk, a) {
      if a.opening.MemoryOther? && a.poolExists == Some(false) {
        ImportsExactly(Floor.EMPTY_ROW, disk.legacy, a);
        if CanImport(a) { ImportCovers(Floor.EMPTY_ROW, disk.legacy, a); }
      } else if a.opening.Persistent? {
        ImportsExactly(RowOf(disk), disk.legacy, a);
        if CanImport(a) { ImportCovers(RowOf(disk), disk.legacy, a); }
      }
    }
  }
}
