/**
 * What restarts of the move do to the identity recorded for the floor, and with it to the release
 * that may be served (src/engine/migration.ts over mergeLegacyFloor of src/engine/sqliteStore.ts).
 */
module MigrationIdentity {
  import opened Prelude
  import opened ChunkStore
  import opened Migration
  import Floor

  // ------------------------------------------------------------- merging once more

  function Merged(row: Floor.Row, slots: Slots): Floor.Row {
    Floor.Next(row, Floor.Step(Floor.MergeSlots(slots), true))
  }

  /** A slot at the floor that a further merge would not change the row for. */
  predicate Stands(row: Floor.Row, p: Floor.Pointer) {
    || (row.floor < 0 && row.pointer.Some?)
    || (row.identity == Some(Floor.IdentityOf(p)) && (row.pointer.Some? <==> Floor.Storable(p)))
  }

  /** The row as a merge of these slots left it. */
  predicate Settled(row: Floor.Row, slots: Slots) {
    && row.identity.Some? && Floor.MaxSequence(slots) <= row.floor
    && forall j :: 0 <= j < |slots| && slots[j].Some? && Floor.SequenceOf(slots[j].value) == row.floor ==>
         Stands(row, slots[j].value)
  }

  predicate Alike(a: Floor.Row, b: Floor.Row) {
    a.floor == b.floor && a.identity == b.identity && (a.pointer.Some? <==> b.pointer.Some?)
  }

  /** Slots that reach the floor make no selection throw. */
  predicate Selects(slots: Slots, floor: int) {
    Floor.MaxSequence(slots) == floor ==> Floor.SelectHighest(slots).Highest?
  }

  lemma MergeEffect(row: Floor.Row, slots: Slots)
    requires Floor.Sound(row)
    ensures Merged(row, slots) == Floor.ReadBack(Floor.MergeLegacy(row, slots)) && Floor.Sound(Merged(row, slots))
    ensures Merged(row, slots).floor == Max(row.floor, Floor.MaxSequence(slots))
  {
    Floor.TriggerNeverFires(row, Floor.MergeSlots(slots));
    Floor.NextIsSound(row, Floor.Step(Floor.MergeSlots(slots), true));
    Floor.MergeRaisesToMaximum(row, slots);
  }

  lemma SameIsStorableAlike(p: Floor.Pointer, q: Floor.Pointer)
    requires Floor.Same(p, q)
    ensures Floor.IdentityOf(p) == Floor.IdentityOf(q) && (Floor.Storable(p) <==> Floor.Storable(q))
  {
  }

  /** A merge that leaves an identity has settled its slots. */
  lemma MergeSettles(row: Floor.Row, slots: Slots)
    requires Floor.Sound(row) && Merged(row, slots).identity.Some?
    ensures Settled(Merged(row, slots), slots)
  {
    MergeEffect(row, slots);
    var after := Merged(row, slots);
    forall j | 0 <= j < |slots| && slots[j].Some? && Floor.SequenceOf(slots[j].value) == after.floor
      ensures Stands(after, slots[j].value)
    {
      Floor.MaxSequenceBounds(slots);
      assert Floor.MaxSequence(slots) == after.floor;
      assert Floor.SelectHighest(slots).Highest?;
      Floor.SelectedStandsForItsSequence(slots, j);
      Floor.SelectedIsTop(slots);
      SameIsStorableAlike(slots[j].value, Floor.SelectHighest(slots).pointer.value);
      SelectedStands(row, slots);
    }
  }

  lemma SelectedStands(row: Floor.Row, slots: Slots)
    requires Floor.Sound(row) && Merged(row, slots).identity.Some?
    requires Floor.SelectHighest(slots).Highest? && Floor.SelectHighest(slots).pointer.Some?
    requires Floor.MaxSequence(slots) == Merged(row, slots).floor
    ensures Stands(Merged(row, slots), Floor.SelectHighest(slots).pointer.value)
  {
    MergeEffect(row, slots);
    Floor.SelectedIsTop(slots);
  }

  /** Merging settled slots again changes nothing, provided they still select. */
  lemma SettledMergeKeeps(row: Floor.Row, slots: Slots)
    requires Floor.Sound(row) && Settled(row, slots) && Selects(slots, row.floor)
    ensures Alike(Merged(row, slots), row) && Floor.Sound(Merged(row, slots))
  {
    MergeEffect(row, slots);
    if Floor.MaxSequence(slots) < row.floor {
      Floor.LowSlotsChangeNothing(row, slots);
    } else if Floor.SelectHighest(slots).pointer.Some? {
      Floor.SelectedIsTop(slots);
      var k :| 0 <= k < |slots| && slots[k] == Floor.SelectHighest(slots).pointer;
      assert Stands(row, slots[k].value);
    }
  }

  /** Slots that reach the floor and disagree cost the row its identity. */
  lemma DisagreementForgets(row: Floor.Row, slots: Slots)
    requires Floor.Sound(row) && Floor.MaxSequence(slots) == row.floor && !Selects(slots, row.floor)
    ensures Merged(row, slots).identity == None && Merged(row, slots).floor == row.floor
  {
    MergeEffect(row, slots);
  }

  /** While the identity is there, alike rows serve the same release. */
  lemma AlikeRowsServeAlike(a: Floor.Row, b: Floor.Row)
    requires Floor.Sound(a) && Floor.Sound(b) && Alike(a, b) && a.identity.Some?
    ensures Floor.SameOutcome(a, b)
  {
  }

  // --------------------------------------------------- the sources still to be read

  /** The sources with the first `m` removed, as removals in order leave them. */
  function FirstGone(sources: seq<Source>, m: nat): seq<Source>
    requires m <= |sources|
  {
    seq(|sources|, i requires 0 <= i < |sources| => if i < m then sources[i].(removed := true) else sources[i])
  }

  /** What they still hold is what the later sources hold. */
  lemma {:induction false} FirstGoneSlots(sources: seq<Source>, m: nat)
    requires m <= |sources|
    ensures AllSlots(FirstGone(sources, m)) == AllSlots(sources[m..])
  {
    if sources != [] {
      var n := |sources| - 1;
      var gone := FirstGone(sources, m);
      if m == |sources| {
        FirstGoneSlots(sources[..n], n);
        assert gone[..n] == FirstGone(sources[..n], n);
        assert sources[..n][n..] == [] && sources[m..] == [];
      } else {
        FirstGoneSlots(sources[..n], m);
        assert gone[..n] == FirstGone(sources[..n], m);
        assert sources[m..][..n - m] == sources[..n][m..];
      }
    }
  }

  lemma LastOfLater(sources: seq<Source>, m: nat)
    requires m < |sources|
    ensures var n := |sources| - 1;
            AllSlots(sources[m..]) == AllSlots(sources[..n][m..]) + SlotsOf(sources[n])
  {
    var n := |sources| - 1;
    assert sources[m..][..n - m] == sources[..n][m..];
  }

  lemma {:induction false} LaterSlots(sources: seq<Source>, m: nat, x: Option<Floor.Pointer>)
    requires m <= |sources| && x in AllSlots(sources[m..])
    ensures x in AllSlots(sources)
  {
    var n := |sources| - 1;
    assert m < |sources|;
    LastOfLater(sources, m);
    if x !in SlotsOf(sources[n]) {
      LaterSlots(sources[..n], m, x);
    }
  }

  lemma {:induction false} LaterMaximum(sources: seq<Source>, m: nat)
    requires m <= |sources|
    ensures Floor.MaxSequence(AllSlots(sources[m..])) <= Floor.MaxSequence(AllSlots(sources))
  {
    var later := AllSlots(sources[m..]);
    Floor.MaxSequenceBounds(later);
    Floor.MaxSequenceBounds(AllSlots(sources));
    if Floor.MaxSequence(later) >= 0 {
      var j :| 0 <= j < |later| && later[j].Some? && Floor.SequenceOf(later[j].value) == Floor.MaxSequence(later);
      LaterSlots(sources, m, later[j]);
    }
  }

  lemma LaterSettled(row: Floor.Row, sources: seq<Source>, m: nat)
    requires m <= |sources| && Settled(row, AllSlots(sources))
    ensures Settled(row, AllSlots(sources[m..]))
  {
    var later := AllSlots(sources[m..]);
    LaterMaximum(sources, m);
    forall j | 0 <= j < |later| && later[j].Some? && Floor.SequenceOf(later[j].value) == row.floor
      ensures Stands(row, later[j].value)
    {
      LaterSlots(sources, m, later[j]);
    }
  }

  lemma AlikeSettled(a: Floor.Row, b: Floor.Row, slots: Slots)
    requires Alike(a, b) && Settled(a, slots)
    ensures Settled(b, slots)
  {
  }

  // ------------------------------------------------------------------ every restart

  /** Each suffix of the sources that still reaches the floor can select its highest release. */
  predicate SuffixesSelect(sources: seq<Source>, floor: int) {
    forall m :: 0 <= m <= |sources| ==> Selects(AllSlots(sources[m..]), floor)
  }

  /** What one call to begin leaves. */
  function Begun(w: World): World {
    BeginStep(w, false)
  }

  /** The worlds migration alone leads to: a prefix of the sources is gone, the row is as begun. */
  predicate OnTrack(w0: World, row: Floor.Row, w: World, m: nat) {
    && m <= |w0.sources| && w.sources == FirstGone(w0.sources, m)
    && Floor.Sound(w.store.row) && Alike(w.store.row, row)
    && (w.pc.Removing? ==> w.pc.next <= m)
    && (w.pc.SnapshotsRead? ==> w.pc.snapshots == w.sources)
  }

  lemma MergeOnTrack(w0: World, row: Floor.Row, w: World, m: nat)
    requires OnTrack(w0, row, w, m) && Settled(row, AllSlots(w0.sources)) && SuffixesSelect(w0.sources, row.floor)
    ensures Alike(Merged(w.store.row, AllSlots(w.sources)), row)
    ensures Floor.Sound(Merged(w.store.row, AllSlots(w.sources)))
  {
    FirstGoneSlots(w0.sources, m);
    LaterSettled(row, w0.sources, m);
    AlikeSettled(row, w.store.row, AllSlots(w.sources));
    assert Selects(AllSlots(w0.sources[m..]), row.floor);
    SettledMergeKeeps(w.store.row, AllSlots(w.sources));
  }

  lemma BeginOnTrack(w0: World, row: Floor.Row, w: World, m: nat, fails: bool)
    requires OnTrack(w0, row, w, m) && Settled(row, AllSlots(w0.sources)) && SuffixesSelect(w0.sources, row.floor)
    ensures OnTrack(w0, row, BeginStep(w, fails), m)
  {
    MergeOnTrack(w0, row, w, m);
  }

  lemma ImportOnTrack(c: Primitives, w0: World, row: Floor.Row, w: World, m: nat, fails: bool)
    requires OnTrack(w0, row, w, m) && Settled(row, AllSlots(w0.sources)) && SuffixesSelect(w0.sources, row.floor)
    ensures OnTrack(w0, row, ImportStep(c, w, fails), m)
  {
    if w.pc.SnapshotsRead? {
      MergeOnTrack(w0, row, w, m);
      var store := Imported(c, w.store, w.pc.snapshots, fails);
      assert store.row == w.store.row || store.row == Merged(w.store.row, AllSlots(w.sources));
    }
  }

  lemma RemoveOnTrack(w0: World, row: Floor.Row, w: World, m: nat, fails: bool) returns (after: nat)
    requires OnTrack(w0, row, w, m)
    ensures OnTrack(w0, row, RemoveStep(w, fails), after)
  {
    after := if w.pc.Removing? && w.pc.next == m < |w.sources| && !fails then m + 1 else m;
    if w.pc.Removing? && w.pc.next < |w.sources| && !fails {
      assert RemoveStep(w, fails).sources == FirstGone(w0.sources, after);
    }
  }

  lemma StepOnTrack(c: Primitives, w0: World, row: Floor.Row, w: World, m: nat, e: Event) returns (after: nat)
    requires OnTrack(w0, row, w, m) && Settled(row, AllSlots(w0.sources)) && SuffixesSelect(w0.sources, row.floor)
    requires !e.Meanwhile?
    ensures OnTrack(w0, row, Next(c, w, e), after)
  {
    after := m;
    match e
    case Begin(readFails, raiseFails) => BeginOnTrack(w0, row, w, m, readFails || raiseFails);
    case Import(fails) => ImportOnTrack(c, w0, row, w, m, fails);
    case RemoveNext(fails) => after := RemoveOnTrack(w0, row, w, m, fails);
    case _ =>
  }

  lemma BegunRow(c: Primitives, w: World)
    requires Initial(c, w)
    ensures Begun(w).store.row == Merged(w.store.row, AllSlots(w.sources)) && Begun(w).pc.FloorInForce?
    ensures Floor.Sound(Begun(w).store.row)
    ensures Begun(w).store.row.floor == TargetFloor(w) && Begun(w).sources == w.sources
  {
    MergeEffect(w.store.row, AllSlots(w.sources));
  }

  lemma {:induction false} RunsStayOnTrack(c: Primitives, w: World, run: seq<Event>) returns (m: nat)
    requires Initial(c, w) && Begun(w).store.row.identity.Some? && OnlyMigrating(run)
    requires SuffixesSelect(w.sources, TargetFloor(w))
    ensures OnTrack(w, Begun(w).store.row, After(c, Begun(w), run), m)
  {
    BegunRow(c, w);
    var row := Begun(w).store.row;
    if run == [] {
      m := 0;
      assert FirstGone(w.sources, 0) == w.sources;
    } else {
      var n := |run| - 1;
      m := RunsStayOnTrack(c, w, run[..n]);
      MergeSettles(w.store.row, AllSlots(w.sources));
      m := StepOnTrack(c, w, row, After(c, Begun(w), run[..n]), m, run[n]);
    }
  }

  // ------------------------------------------------------- the restart that forgets

  function Undisturbed(k: nat): Faults {
    Faults(false, false, false, false, k, false)
  }

  /** The rest of an attempt that copies, removes `k` sources and crashes, and the next one's begin. */
  function CrashAfter(k: nat): seq<Event> {
    [ReadAll(false), Import(false)] + Removals(Undisturbed(k), k) + [Crash, Begin(false, false)]
  }

  lemma CopyAsRun(c: Primitives, w: World)
    requires Initial(c, w)
    ensures After(c, Begun(w), [ReadAll(false), Import(false)]) == Copy(c, w, Undisturbed(0))
  {
    var read, imports := ReadAll(false), Import(false);
    assert [read, imports][..1] == [read] && [read][..0] == [];
    assert After(c, Begun(w), []) == Begun(w);
    assert After(c, Begun(w), [read]) == Next(c, Begun(w), read);
  }

  lemma {:induction false} RemovalsInOrder(w: World, f: Faults, k: nat)
    requires w.pc == Removing(0) && k <= |w.sources| && k <= f.remove
    ensures RemoveAll(w, f, k) == World(w.store, FirstGone(w.sources, k), Removing(k))
  {
    if k == 0 {
      assert FirstGone(w.sources, 0) == w.sources;
    } else {
      RemovalsInOrder(w, f, k - 1);
      var before := FirstGone(w.sources, k - 1);
      assert before[k - 1 := before[k - 1].(removed := true)] == FirstGone(w.sources, k);
    }
  }

  lemma RemovedWorld(c: Primitives, w: World, k: nat)
    requires Initial(c, w) && k <= |w.sources|
    ensures After(c, Begun(w), [ReadAll(false), Import(false)] + Removals(Undisturbed(k), k)) ==
              World(Copy(c, w, Undisturbed(0)).store, FirstGone(w.sources, k), Removing(k))
  {
    var copied := Copy(c, w, Undisturbed(0));
    CopyAsRun(c, w);
    CopySucceeds(c, w, Undisturbed(0));
    CopyKeepsSources(c, w);
    RemovalsRun(c, Begun(w), Undisturbed(k), [ReadAll(false), Import(false)], k);
    RemovalsInOrder(copied, Undisturbed(k), k);
  }

  lemma CopyKeepsSources(c: Primitives, w: World)
    ensures Copy(c, w, Undisturbed(0)).sources == w.sources
  {
  }

  function Restarted(w: World): World {
    BeginStep(World(w.store.(pending := [], pendingBytes := 0), w.sources, Idle), false)
  }

  lemma RestartRun(c: Primitives, w: World, run: seq<Event>)
    ensures After(c, w, run + [Crash, Begin(false, false)]) == Restarted(After(c, w, run))
  {
    AfterOne(c, w, run, Crash);
    AfterOne(c, w, run + [Crash], Begin(false, false));
    assert run + [Crash, Begin(false, false)] == run + [Crash] + [Begin(false, false)];
  }

  lemma CopiedRow(c: Primitives, w: World)
    requires Initial(c, w)
    ensures var s := Copy(c, w, Undisturbed(0)).store;
            Floor.Sound(s.row) && s.row.floor == TargetFloor(w) && !s.migration.Done?
  {
    BegunRow(c, w);
    var begun := Begun(w);
    MergeEffect(begun.store.row, AllSlots(w.sources));
    ImportedEffect(c, begun.store, w.sources);
  }

  lemma RestartForgets(w: World, slots: Slots)
    requires Floor.Sound(w.store.row) && !w.store.migration.Done? && AllSlots(w.sources) == slots
    requires Floor.MaxSequence(slots) == w.store.row.floor && !Selects(slots, w.store.row.floor)
    ensures var row := Restarted(w).store.row;
            row.identity == None && row.floor == w.store.row.floor && (row.floor >= 0 ==> Floor.Served(row) == None)
  {
    DisagreementForgets(w.store.row, slots);
    MergeEffect(w.store.row, slots);
    assert Restarted(w).store.row == Merged(w.store.row, slots);
  }

  /** A crash after `k` removals forgets the identity when the later sources reach the floor and disagree. */
  lemma CrashForgets(c: Primitives, w: World, k: nat)
    requires Initial(c, w) && k <= |w.sources| && !Selects(AllSlots(w.sources[k..]), TargetFloor(w))
    ensures var row := After(c, Begun(w), CrashAfter(k)).store.row;
            && row.identity == None && row.floor == TargetFloor(w)
            && (row.floor >= 0 ==> Floor.Served(row) == None)
  {
    var removed := [ReadAll(false), Import(false)] + Removals(Undisturbed(k), k);
    RestartRun(c, Begun(w), removed);
    RemovedWorld(c, w, k);
    CopiedRow(c, w);
    FirstGoneSlots(w.sources, k);
    RestartForgets(After(c, Begun(w), removed), AllSlots(w.sources[k..]));
  }

  /** The row after a first begin and any further run. */
  function RowAfter(c: Primitives, w: World, run: seq<Event>): Floor.Row {
    After(c, Begun(w), run).store.row
  }

  lemma RowSurvives(c: Primitives, w: World, run: seq<Event>)
    requires Initial(c, w) && Begun(w).store.row.identity.Some? && OnlyMigrating(run)
    requires SuffixesSelect(w.sources, TargetFloor(w))
    ensures RowAfter(c, w, run).identity == RowAfter(c, w, []).identity
    ensures Floor.SameOutcome(RowAfter(c, w, run), RowAfter(c, w, []))
  {
    BegunRow(c, w);
    var m := RunsStayOnTrack(c, w, run);
    AlikeRowsServeAlike(RowAfter(c, w, run), RowAfter(c, w, []));
  }

  lemma TornSuffix(sources: seq<Source>, floor: int) returns (k: nat)
    requires !SuffixesSelect(sources, floor)
    ensures k <= |sources| && !Selects(AllSlots(sources[k..]), floor)
  {
    k :| 0 <= k <= |sources| && !Selects(AllSlots(sources[k..]), floor);
  }

  lemma CrashOnlyMigrates(k: nat)
    ensures OnlyMigrating(CrashAfter(k))
  {
    StepsOnlyMigrate(Undisturbed(k), k);
  }

  lemma RowIsForgotten(c: Primitives, w: World) returns (run: seq<Event>)
    requires Initial(c, w) && !SuffixesSelect(w.sources, TargetFloor(w))
    ensures OnlyMigrating(run) && RowAfter(c, w, run).identity == None
  {
    var k := TornSuffix(w.sources, TargetFloor(w));
    CrashForgets(c, w, k);
    CrashOnlyMigrates(k);
    run := CrashAfter(k);
  }

  /** Restarts keep the identity that the first merge recorded, and with it what is served, if and only
      if every suffix of the sources that still reaches the floor can select its highest release. */
  lemma IdentitySurvivesExactly(c: Primitives, w: World)
    requires Initial(c, w) && RowAfter(c, w, []).identity.Some?
    ensures (forall run :: OnlyMigrating(run) ==> RowAfter(c, w, run).identity == RowAfter(c, w, []).identity)
            <==> SuffixesSelect(w.sources, TargetFloor(w))
    ensures SuffixesSelect(w.sources, TargetFloor(w)) ==>
              forall run :: OnlyMigrating(run) ==> Floor.SameOutcome(RowAfter(c, w, run), RowAfter(c, w, []))
  {
    if SuffixesSelect(w.sources, TargetFloor(w)) {
      forall run | OnlyMigrating(run)
        ensures RowAfter(c, w, run).identity == RowAfter(c, w, []).identity
        ensures Floor.SameOutcome(RowAfter(c, w, run), RowAfter(c, w, []))
      {
        RowSurvives(c, w, run);
      }
    } else {
      var run := RowIsForgotten(c, w);
    }
  }
}
