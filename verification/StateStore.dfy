/**
 * The versioned application state (src/sqlite/database.ts): rows with revisions, a schema version and
 * an epoch that every change raises. Each operation is one transaction, which may also be aborted.
 */
module StateStore {
  import opened Prelude

  const MAX_MUTATIONS: nat := 10_000
  const MAX_NAMESPACE: nat := 128
  const MAX_KEY: nat := 4_096

  type Name = (Text, Text)

  datatype Row = Row(value: Bytes, revision: int)
  datatype Mutation = Put(name: Name, value: Bytes) | Delete(name: Name)
  datatype Store = Store(rows: map<Name, Row>, version: int, epoch: int)
  datatype Snapshot = Snapshot(version: int, epoch: int, rows: seq<(Name, Row)>)

  // -------------------------------------------------------------------- validation

  predicate ValidText(t: Text, maximum: nat) {
    0 < |t| <= maximum && 0 !in t
  }

  predicate ValidName(n: Name) {
    ValidText(n.0, MAX_NAMESPACE) && ValidText(n.1, MAX_KEY)
  }

  predicate ValidMutations(mutations: seq<Mutation>) {
    |mutations| <= MAX_MUTATIONS && forall i :: 0 <= i < |mutations| ==> ValidName(mutations[i].name)
  }

  predicate ValidVersion(v: int) {
    SafeInteger(v) && v >= 1
  }

  predicate ValidEpoch(e: int) {
    SafeInteger(e) && e >= 0
  }

  predicate ValidExpected(e: Option<int>) {
    e.Some? ==> ValidEpoch(e.value)
  }

  predicate ValidSnapshot(s: Snapshot) {
    && ValidVersion(s.version) && ValidEpoch(s.epoch)
    && forall i :: 0 <= i < |s.rows| ==> ValidName(s.rows[i].0) && 0 <= s.rows[i].1.revision <= s.epoch
  }

  // -------------------------------------------------------------------- operations

  /** The rows after the first mutations, every put at revision `revision`. */
  function Apply(rows: map<Name, Row>, mutations: seq<Mutation>, revision: int): map<Name, Row> {
    if mutations == [] then rows
    else
      var before, last := Apply(rows, mutations[..|mutations| - 1], revision), mutations[|mutations| - 1];
      match last
      case Put(name, value) => before[name := Row(value, revision)]
      case Delete(name) => before - {name}
  }

  /** How many rows the statements changed: a put always one, a delete one if the row was there. */
  function Changed(rows: map<Name, Row>, mutations: seq<Mutation>, revision: int): nat {
    if mutations == [] then 0
    else
      var front, last := mutations[..|mutations| - 1], mutations[|mutations| - 1];
      Changed(rows, front, revision)
      + if last.Put? || last.name in Apply(rows, front, revision) then 1 else 0
  }

  predicate EpochMatches(s: Store, expected: Option<int>) {
    expected.None? || expected.value == s.epoch
  }

  /** Reading the epoch throws once it is no safe integer. */
  predicate Readable(s: Store) {
    ValidEpoch(s.epoch)
  }

  function ApplyBatch(s: Store, mutations: seq<Mutation>, expected: Option<int>, force: bool): Option<Store> {
    if !Readable(s) || !EpochMatches(s, expected) then None
    else if mutations == [] && !force then Some(s)
    else
      var rows := Apply(s.rows, mutations, s.epoch + 1);
      var changed := Changed(s.rows, mutations, s.epoch + 1) > 0 || force;
      Some(Store(rows, s.version, if changed then s.epoch + 1 else s.epoch))
  }

  predicate DistinctNames(rows: seq<(Name, Row)>) {
    forall i, j :: 0 <= i < j < |rows| ==> rows[i].0 != rows[j].0
  }

  function Inserted(rows: seq<(Name, Row)>): map<Name, Row> {
    if rows == [] then map[] else Inserted(rows[..|rows| - 1])[rows[|rows| - 1].0 := rows[|rows| - 1].1]
  }

  datatype Op =
    | Batch(mutations: seq<Mutation>, expected: Option<int>)
    | Migrate(fromVersion: int, toVersion: int, mutations: seq<Mutation>, expected: Option<int>)
    | Reset(expected: Option<int>)
    | Import(snapshot: Snapshot, expected: Option<int>)

  /** What the operation commits, or None when it throws. */
  function Attempt(s: Store, op: Op): Option<Store> {
    match op
    case Batch(mutations, expected) =>
      if !ValidMutations(mutations) || !ValidExpected(expected) then None
      else ApplyBatch(s, mutations, expected, false)
    case Migrate(fromVersion, toVersion, mutations, expected) =>
      if !ValidVersion(fromVersion) || !ValidVersion(toVersion) || toVersion <= fromVersion
         || !ValidExpected(expected) || !ValidMutations(mutations) || s.version != fromVersion then None
      else
        var applied := ApplyBatch(s, mutations, expected, true);
        if applied.None? then None else Some(applied.value.(version := toVersion))
    case Reset(expected) =>
      if !ValidExpected(expected) || !Readable(s) || !EpochMatches(s, expected) then None
      else if s.rows == map[] then Some(s)
      else Some(s.(rows := map[], epoch := s.epoch + 1))
    case Import(snapshot, expected) =>
      if !ValidExpected(expected) || !Readable(s) || !EpochMatches(s, expected) || !ValidSnapshot(snapshot)
         || !DistinctNames(snapshot.rows) then None
      else Some(Store(Inserted(snapshot.rows), snapshot.version, Max(s.epoch, snapshot.epoch) + 1))
  }

  /** One operation by any writer; `aborted` when the transaction fails in the database. */
  datatype Step = Step(op: Op, aborted: bool)

  function Next(s: Store, e: Step): Store {
    if e.aborted || Attempt(s, e.op).None? then s else Attempt(s, e.op).value
  }

  function After(s: Store, run: seq<Step>): Store {
    if run == [] then s else Next(After(s, run[..|run| - 1]), run[|run| - 1])
  }

  // ------------------------------------------------------------------- in place

  datatype Staged = Staged(id: nat, snapshot: Snapshot)

  class SqliteStateStore {
    var rows: map<Name, Row>
    var version: int
    var epoch: int
    var staged: Option<Staged>
    var stageSequence: nat
    var disposed: bool

    function Value(): Store
      reads this
    {
      Store(rows, version, epoch)
    }

    constructor (initialVersion: int)
      requires ValidVersion(initialVersion)
      ensures Value() == Store(map[], initialVersion, 0) && staged.None? && !disposed && stageSequence == 0
    {
      rows, version, epoch := map[], initialVersion, 0;
      staged, stageSequence, disposed := None, 0, false;
    }

    /** The loop of `#applyBatch`: run each statement and count what it changed. */
    method Execute(mutations: seq<Mutation>, revision: int) returns (changed: nat)
      modifies this`rows
      ensures rows == Apply(old(rows), mutations, revision)
      ensures changed == Changed(old(rows), mutations, revision)
    {
      changed := 0;
      for i := 0 to |mutations|
        invariant rows == Apply(old(rows), mutations[..i], revision)
        invariant changed == Changed(old(rows), mutations[..i], revision)
      {
        assert mutations[..i + 1][..i] == mutations[..i];
        match mutations[i] {
          case Put(name, value) =>
            rows := rows[name := Row(value, revision)];
            changed := changed + 1;
          case Delete(name) =>
            if name in rows {
              rows := rows - {name};
              changed := changed + 1;
            } else {
              assert rows - {name} == rows;
            }
        }
      }
      assert mutations[..|mutations|] == mutations;
    }

    method ApplyAll(mutations: seq<Mutation>, expected: Option<int>, force: bool) returns (ok: bool)
      modifies this`rows, this`epoch
      ensures ok <==> ApplyBatch(old(Value()), mutations, expected, force).Some?
      ensures Value() == if ok then ApplyBatch(old(Value()), mutations, expected, force).value else old(Value())
    {
      if !ValidEpoch(epoch) || (expected.Some? && epoch != expected.value) {
        return false;
      }
      if mutations == [] && !force {
        return true;
      }
      var nextEpoch := epoch + 1;
      var changed := Execute(mutations, nextEpoch);
      if changed > 0 || force {
        epoch := nextEpoch;
      }
      return true;
    }

    method BatchAll(mutations: seq<Mutation>, expected: Option<int>, aborted: bool) returns (ok: bool)
      modifies this`rows, this`epoch
      ensures ok <==> !old(disposed) && !aborted && Attempt(old(Value()), Batch(mutations, expected)).Some?
      ensures Value() == if old(disposed) then old(Value())
                         else Next(old(Value()), Step(Batch(mutations, expected), aborted))
    {
      if disposed || aborted || !ValidMutations(mutations) || !ValidExpected(expected) {
        return false;
      }
      ok := ApplyAll(mutations, expected, false);
    }

    method MigrateTo(fromVersion: int, toVersion: int, mutations: seq<Mutation>, expected: Option<int>, aborted: bool)
        returns (ok: bool)
      modifies this`rows, this`epoch, this`version
      ensures ok <==> !old(disposed) && !aborted
                      && Attempt(old(Value()), Migrate(fromVersion, toVersion, mutations, expected)).Some?
      ensures Value() == if old(disposed) then old(Value())
                         else Next(old(Value()), Step(Migrate(fromVersion, toVersion, mutations, expected), aborted))
    {
      if disposed || aborted || !ValidVersion(fromVersion) || !ValidVersion(toVersion) || toVersion <= fromVersion
         || !ValidExpected(expected) || !ValidMutations(mutations) || version != fromVersion {
        return false;
      }
      ok := ApplyAll(mutations, expected, true);
      if ok {
        version := toVersion;
      }
    }

    method ResetAll(expected: Option<int>, aborted: bool) returns (ok: bool)
      modifies this`rows, this`epoch
      ensures ok <==> !old(disposed) && !aborted && Attempt(old(Value()), Reset(expected)).Some?
      ensures Value() == if old(disposed) then old(Value()) else Next(old(Value()), Step(Reset(expected), aborted))
    {
      if disposed || aborted || !ValidExpected(expected) || !ValidEpoch(epoch)
         || (expected.Some? && epoch != expected.value) {
        return false;
      }
      if rows != map[] {
        rows, epoch := map[], epoch + 1;
      }
      return true;
    }

    /** Validate and keep a copy; a second stage replaces the first. */
    method StageImport(snapshot: Snapshot) returns (id: Option<nat>)
      modifies this`staged, this`stageSequence
      ensures Value() == old(Value())
      ensures id.Some? <==> !old(disposed) && ValidSnapshot(snapshot)
      ensures id.Some? ==> staged == Some(Staged(id.value, snapshot))
      ensures id.Some? ==> stageSequence == id.value == old(stageSequence) + 1
      ensures id.None? ==> staged == old(staged) && stageSequence == old(stageSequence)
    {
      if disposed || !ValidSnapshot(snapshot) {
        return None;
      }
      stageSequence := stageSequence + 1;
      staged := Some(Staged(stageSequence, snapshot));
      return Some(stageSequence);
    }

    method DiscardImport(id: nat)
      modifies this`staged
      ensures staged == if !old(disposed) && old(staged).Some? && old(staged).value.id == id then None else old(staged)
    {
      if !disposed && staged.Some? && staged.value.id == id {
        staged := None;
      }
    }

    /** One INSERT after the other; the primary key refuses a name that is already there. */
    static method InsertRows(snapshotRows: seq<(Name, Row)>) returns (r: Option<map<Name, Row>>)
      ensures r == if DistinctNames(snapshotRows) then Some(Inserted(snapshotRows)) else None
    {
      var imported: map<Name, Row> := map[];
      for i := 0 to |snapshotRows|
        invariant imported == Inserted(snapshotRows[..i])
        invariant forall n :: n in imported <==> exists j :: 0 <= j < i && snapshotRows[j].0 == n
        invariant DistinctNames(snapshotRows[..i])
      {
        assert snapshotRows[..i + 1][..i] == snapshotRows[..i];
        if snapshotRows[i].0 in imported {
          return None;
        }
        imported := imported[snapshotRows[i].0 := snapshotRows[i].1];
      }
      assert snapshotRows[..|snapshotRows|] == snapshotRows;
      return Some(imported);
    }

    /** The staged snapshot, whole or not at all; it is consumed only when it was committed. */
    method CommitImport(id: nat, expected: Option<int>, aborted: bool) returns (ok: bool)
      requires staged.Some? ==> ValidSnapshot(staged.value.snapshot)
      modifies this
      ensures ok <==> !old(disposed) && old(staged).Some? && old(staged).value.id == id && !aborted
                      && Attempt(old(Value()), Import(old(staged).value.snapshot, expected)).Some?
      ensures ok ==> Some(Value()) == Attempt(old(Value()), Import(old(staged).value.snapshot, expected))
      ensures ok ==> staged.None?
      ensures !ok ==> Value() == old(Value()) && staged == old(staged)
      ensures stageSequence == old(stageSequence) && disposed == old(disposed)
    {
      if disposed || !ValidExpected(expected) || staged.None? || staged.value.id != id || aborted {
        return false;
      }
      var snapshot := staged.value.snapshot;
      if !ValidEpoch(epoch) || (expected.Some? && epoch != expected.value) {
        return false;
      }
      var read := InsertRows(snapshot.rows);
      if read.None? {
        return false;  // the primary key refused a row, and the transaction is rolled back
      }
      rows, version, epoch := read.value, snapshot.version, Max(epoch, snapshot.epoch) + 1;
      staged := None;
      return true;
    }

    /** What is staged is given up; the rows stay in the closed database. */
    method Dispose()
      modifies this`disposed, this`staged
      ensures disposed && staged == if old(disposed) then old(staged) else None
      ensures Value() == old(Value())
    {
      if disposed {
        return;
      }
      disposed, staged := true, None;
    }
  }

  // ------------------------------------------------------------------------- epochs

  /** Without a changed row the rows are the same. */
  lemma {:induction false} NoChangeNoDifference(rows: map<Name, Row>, mutations: seq<Mutation>, revision: int)
    requires Changed(rows, mutations, revision) == 0
    ensures Apply(rows, mutations, revision) == rows
  {
    if mutations != [] {
      NoChangeNoDifference(rows, mutations[..|mutations| - 1], revision);
      assert rows - {mutations[|mutations| - 1].name} == rows;
    }
  }

  /** A step leaves the store alone or raises its epoch. */
  lemma ChangeRaisesTheEpoch(s: Store, e: Step)
    ensures Next(s, e) == s || Next(s, e).epoch > s.epoch
  {
    if e.op.Batch? && Changed(s.rows, e.op.mutations, s.epoch + 1) == 0 {
      NoChangeNoDifference(s.rows, e.op.mutations, s.epoch + 1);
    }
  }

  lemma {:induction false} EpochNeverDecreases(s: Store, run: seq<Step>, more: seq<Step>)
    ensures After(s, run).epoch <= After(s, run + more).epoch
    ensures After(s, run).epoch == After(s, run + more).epoch ==> After(s, run) == After(s, run + more)
  {
    if more == [] {
      assert run + more == run;
    } else {
      EpochNeverDecreases(s, run, more[..|more| - 1]);
      assert (run + more)[..|run + more| - 1] == run + more[..|more| - 1];
      ChangeRaisesTheEpoch(After(s, run + more[..|more| - 1]), more[|more| - 1]);
    }
  }

  /** No ABA: at two times with equal epochs, rows and schema version are identical. */
  lemma EqualEpochsMeanEqualStores(s: Store, run: seq<Step>, i: nat, j: nat)
    requires i <= j <= |run| && After(s, run[..i]).epoch == After(s, run[..j]).epoch
    ensures After(s, run[..i]) == After(s, run[..j])
  {
    assert run[..i] + run[i..j] == run[..j];
    EpochNeverDecreases(s, run[..i], run[i..j]);
  }

  lemma ChangeNeedsTheExpectedEpoch(s: Store, e: Step)
    requires e.op.expected.Some? && Next(s, e) != s
    ensures s.epoch == e.op.expected.value
  {
  }

  /** Compare and swap: of two writers that hold the same expected epoch at most one changes the store. */
  lemma OneWriterWins(s: Store, run: seq<Step>, i: nat, j: nat)
    requires i < j < |run|
    requires run[i].op.expected.Some? && run[i].op.expected == run[j].op.expected
    ensures After(s, run[..i + 1]) == After(s, run[..i]) || After(s, run[..j + 1]) == After(s, run[..j])
  {
    var a, b := After(s, run[..i]), After(s, run[..j]);
    assert run[..i + 1][..i] == run[..i] && run[..j + 1][..j] == run[..j];
    if Next(a, run[i]) != a && Next(b, run[j]) != b {
      ChangeNeedsTheExpectedEpoch(a, run[i]);
      ChangeNeedsTheExpectedEpoch(b, run[j]);
      ChangeRaisesTheEpoch(a, run[i]);
      assert run[..i + 1] + run[i + 1..j] == run[..j];
      EpochNeverDecreases(s, run[..i + 1], run[i + 1..j]);
    }
  }

  // ---------------------------------------------------------------------- revisions

  /** No row is newer than the store. */
  predicate RevisionsOk(s: Store) {
    s.epoch >= 0 && forall n <- s.rows :: 0 <= s.rows[n].revision <= s.epoch
  }

  lemma {:induction false} AppliedRevisions(rows: map<Name, Row>, mutations: seq<Mutation>, revision: int)
    requires revision >= 0 && forall n <- rows :: 0 <= rows[n].revision <= revision
    ensures forall n <- Apply(rows, mutations, revision) ::
              0 <= Apply(rows, mutations, revision)[n].revision <= revision
  {
    if mutations != [] {
      AppliedRevisions(rows, mutations[..|mutations| - 1], revision);
    }
  }

  lemma {:induction false} InsertedComeFromRows(rows: seq<(Name, Row)>)
    ensures forall n <- Inserted(rows) :: exists i :: 0 <= i < |rows| && rows[i] == (n, Inserted(rows)[n])
  {
    if rows != [] {
      var front := rows[..|rows| - 1];
      InsertedComeFromRows(front);
      forall n | n in Inserted(rows) ensures exists i :: 0 <= i < |rows| && rows[i] == (n, Inserted(rows)[n]) {
        if n == rows[|rows| - 1].0 {
          assert rows[|rows| - 1] == (n, Inserted(rows)[n]);
        } else {
          assert n in Inserted(front) && Inserted(front)[n] == Inserted(rows)[n];
          var i :| 0 <= i < |front| && front[i] == (n, Inserted(front)[n]);
          assert rows[i] == front[i];
        }
      }
    }
  }

  lemma RevisionsStayBounded(s: Store, e: Step)
    requires RevisionsOk(s)
    ensures RevisionsOk(Next(s, e))
  {
    match e.op
    case Batch(mutations, _) =>
      AppliedRevisions(s.rows, mutations, s.epoch + 1);
      if Changed(s.rows, mutations, s.epoch + 1) == 0 {
        NoChangeNoDifference(s.rows, mutations, s.epoch + 1);
      }
    case Migrate(_, _, mutations, _) => AppliedRevisions(s.rows, mutations, s.epoch + 1);
    case Reset(_) =>
    case Import(snapshot, _) => InsertedComeFromRows(snapshot.rows);
  }

  lemma {:induction false} EveryRevisionIsAtMostTheEpoch(version: int, run: seq<Step>)
    ensures RevisionsOk(After(Store(map[], version, 0), run))
  {
    if run != [] {
      EveryRevisionIsAtMostTheEpoch(version, run[..|run| - 1]);
      RevisionsStayBounded(After(Store(map[], version, 0), run[..|run| - 1]), run[|run| - 1]);
    }
  }

  /** The last mutation of a name, if there is one. */
  function LastOf(mutations: seq<Mutation>, n: Name): Option<Mutation> {
    if mutations == [] then None
    else if mutations[|mutations| - 1].name == n then Some(mutations[|mutations| - 1])
    else LastOf(mutations[..|mutations| - 1], n)
  }

  /** The last mutation of a name decides its row; other rows keep value and revision. */
  lemma {:induction false} LastMutationWins(rows: map<Name, Row>, mutations: seq<Mutation>, revision: int, n: Name)
    ensures var after := Apply(rows, mutations, revision);
            match LastOf(mutations, n)
            case None => (n in after <==> n in rows) && (n in after ==> after[n] == rows[n])
            case Some(Put(_, value)) => n in after && after[n] == Row(value, revision)
            case Some(Delete(_)) => n !in after
  {
    if mutations != [] {
      LastMutationWins(rows, mutations[..|mutations| - 1], revision, n);
    }
  }

  // ------------------------------------------------------------------ the last epoch

  /** Everything an operation is checked for before it writes. */
  predicate Accepts(s: Store, op: Op) {
    && Readable(s) && ValidExpected(op.expected) && EpochMatches(s, op.expected)
    && match op
       case Batch(mutations, _) => ValidMutations(mutations)
       case Migrate(fromVersion, toVersion, mutations, _) =>
         && ValidVersion(fromVersion) && ValidVersion(toVersion) && fromVersion < toVersion
         && s.version == fromVersion && ValidMutations(mutations)
       case Reset(_) => true
       case Import(snapshot, _) => ValidSnapshot(snapshot) && DistinctNames(snapshot.rows)
  }

  /** There is a put, or a delete of a row that is there. */
  predicate Touches(rows: map<Name, Row>, mutations: seq<Mutation>) {
    exists i :: 0 <= i < |mutations| && (mutations[i].Put? || mutations[i].name in rows)
  }

  /** The operation has something to do. */
  predicate HasEffect(s: Store, op: Op) {
    match op
    case Batch(mutations, _) => Touches(s.rows, mutations)
    case Migrate(_, _, _, _) => true
    case Reset(_) => s.rows != map[]
    case Import(_, _) => true
  }

  /** The epoch it builds on. */
  function BaseEpoch(s: Store, op: Op): int {
    if op.Import? then Max(s.epoch, op.snapshot.epoch) else s.epoch
  }

  lemma AcceptedExactly(s: Store, op: Op)
    ensures Attempt(s, op).Some? <==> Accepts(s, op)
  {
  }

  /** Per name the last mutation decides; all other rows keep value and revision. */
  ghost predicate Decided(rows: map<Name, Row>, after: map<Name, Row>, mutations: seq<Mutation>, revision: int) {
    forall n: Name ::
      match LastOf(mutations, n)
      case None => (n in after <==> n in rows) && (n in after ==> after[n] == rows[n])
      case Some(Put(_, value)) => n in after && after[n] == Row(value, revision)
      case Some(Delete(_)) => n !in after
  }

  lemma BatchDecides(s: Store, mutations: seq<Mutation>, expected: Option<int>, force: bool)
    requires Readable(s) && EpochMatches(s, expected)
    ensures Decided(s.rows, ApplyBatch(s, mutations, expected, force).value.rows, mutations, s.epoch + 1)
  {
    forall n: Name {
      LastMutationWins(s.rows, mutations, s.epoch + 1, n);
    }
  }

  /** With distinct names, rows go in just as they are. */
  lemma {:induction false} InsertedExactly(rows: seq<(Name, Row)>)
    requires DistinctNames(rows)
    ensures forall n, r :: n in Inserted(rows) && Inserted(rows)[n] == r <==> (n, r) in rows
  {
    if rows != [] {
      var front, last := rows[..|rows| - 1], rows[|rows| - 1];
      InsertedExactly(front);
      assert rows == front + [last];
      assert forall i :: 0 <= i < |front| ==> rows[i].0 != last.0;
    }
  }

  /** What an accepted operation leaves, said from its input: rows, revisions and schema version. */
  lemma AcceptedTakesEffect(s: Store, op: Op)
    requires Accepts(s, op)
    ensures var t := Next(s, Step(op, false));
            match op
            case Batch(mutations, _) => Decided(s.rows, t.rows, mutations, s.epoch + 1) && t.version == s.version
            case Migrate(_, toVersion, mutations, _) =>
              Decided(s.rows, t.rows, mutations, s.epoch + 1) && t.version == toVersion
            case Reset(_) => t.rows == map[] && t.version == s.version
            case Import(snapshot, _) =>
              (forall n, r :: n in t.rows && t.rows[n] == r <==> (n, r) in snapshot.rows)
              && t.version == snapshot.version
  {
    AcceptedExactly(s, op);
    match op
    case Batch(mutations, expected) => BatchDecides(s, mutations, expected, false);
    case Migrate(_, _, mutations, expected) => BatchDecides(s, mutations, expected, true);
    case Reset(_) =>
    case Import(snapshot, _) => InsertedExactly(snapshot.rows);
  }

  /** Statements change rows exactly when one of them is a put or deletes a row that was there before
      them all. */
  lemma {:induction false} ChangesExactly(rows: map<Name, Row>, mutations: seq<Mutation>, revision: int)
    ensures Changed(rows, mutations, revision) > 0 <==> Touches(rows, mutations)
  {
    if mutations != [] {
      var n := |mutations| - 1;
      ChangesExactly(rows, mutations[..n], revision);
      if Touches(rows, mutations[..n]) {
        var i :| 0 <= i < n && (mutations[..n][i].Put? || mutations[..n][i].name in rows);
        assert mutations[i].Put? || mutations[i].name in rows;
      } else {
        NoChangeNoDifference(rows, mutations[..n], revision);
        assert forall i :: 0 <= i < n ==> mutations[i] == mutations[..n][i];
      }
    }
  }

  /** The whole effect on the epoch, from the input alone. */
  lemma EpochMovesExactly(s: Store, e: Step)
    ensures Next(s, e).epoch ==
            if !e.aborted && Accepts(s, e.op) && HasEffect(s, e.op) then BaseEpoch(s, e.op) + 1 else s.epoch
    ensures Next(s, e) != s <==> !e.aborted && Accepts(s, e.op) && HasEffect(s, e.op)
  {
    AcceptedExactly(s, e.op);
    if e.op.Batch? {
      ChangesExactly(s.rows, e.op.mutations, s.epoch + 1);
      if Changed(s.rows, e.op.mutations, s.epoch + 1) == 0 {
        NoChangeNoDifference(s.rows, e.op.mutations, s.epoch + 1);
      }
    }
  }

  /** An accepted operation with something to do builds on the largest safe integer. */
  predicate Exhausts(s: Store, e: Step) {
    !e.aborted && Accepts(s, e.op) && HasEffect(s, e.op) && BaseEpoch(s, e.op) == MAX_SAFE
  }

  /** A usable store stays usable exactly unless a change is built on epoch 2^53 - 1. */
  lemma StaysUsableExactly(s: Store, e: Step)
    requires Readable(s)
    ensures Readable(Next(s, e)) <==> !Exhausts(s, e)
  {
    EpochMovesExactly(s, e);
  }

  /** After that no operation ever succeeds again. */
  lemma {:induction false} ExhaustedForEver(s: Store, run: seq<Step>)
    requires !Readable(s)
    ensures After(s, run) == s
  {
    if run != [] {
      ExhaustedForEver(s, run[..|run| - 1]);
    }
  }

  /** One accepted import is enough to get there from a new store. */
  lemma OneImportExhausts()
    ensures var s := Store(map[], 1, 0);
            var snapshot := Snapshot(1, MAX_SAFE, []);
            ValidSnapshot(snapshot) && Attempt(s, Import(snapshot, None)).Some?
            && !Readable(Next(s, Step(Import(snapshot, None), false)))
  {
  }
}
