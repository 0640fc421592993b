/**
 * The one-time move from the 0.2.x stores (src/engine/migration.ts), as the steps a crash can fall
 * between. Each source's removal is one step; so is each transaction.
 */
module Migration {
  import opened Prelude
  import opened ChunkStore
  import Canonical
  import StoreAgreement
  import Floor
  import Zstd

  type Slots = seq<Option<Floor.Pointer>>
  type Bodies = seq<(Text, Bytes)>

  /** A legacy store; once removed it reads as empty. */
  datatype Source = Source(slots: Slots, chunks: Bodies, manifests: Bodies, removed: bool)

  function SlotsOf(s: Source): Slots {
    if s.removed then [] else s.slots
  }

  function ChunksOf(s: Source): Bodies {
    if s.removed then [] else s.chunks
  }

  function ManifestsOf(s: Source): Bodies {
    if s.removed then [] else s.manifests
  }

  function AllSlots(sources: seq<Source>): Slots {
    if sources == [] then [] else AllSlots(sources[..|sources| - 1]) + SlotsOf(sources[|sources| - 1])
  }

  function AllChunks(sources: seq<Source>): Bodies {
    if sources == [] then [] else AllChunks(sources[..|sources| - 1]) + ChunksOf(sources[|sources| - 1])
  }

  function AllManifests(sources: seq<Source>): Bodies {
    if sources == [] then [] else AllManifests(sources[..|sources| - 1]) + ManifestsOf(sources[|sources| - 1])
  }

  // --------------------------------------------------------- verifying the copies

  /** The plaintext size of a legacy chunk that verifies. */
  function VerifiedSize(c: Primitives, hash: Text, body: Bytes): Option<nat> {
    if !HexText(hash, 64) then None
    else
      match c.declared(body)
      case None => None
      case Some(size) =>
        if size > MAX_DECOMPRESSED || Verify(c, hash, body, size).None? then None else Some(size)
  }

  predicate Verifiable(c: Primitives, chunk: (Text, Bytes)) {
    VerifiedSize(c, chunk.0, chunk.1).Some?
  }

  /** The first verifying body of each hash, in order. */
  function VerifiedRows(c: Primitives, all: Bodies): seq<Chunk> {
    if all == [] then []
    else
      var before := VerifiedRows(c, all[..|all| - 1]);
      var (hash, body) := all[|all| - 1];
      if Buffered(before, hash) || !Verifiable(c, (hash, body)) then before
      else before + [Chunk(hash, VerifiedSize(c, hash, body).value, body)]
  }

  function SkippedCount(c: Primitives, all: Bodies): nat {
    if all == [] then 0
    else
      var front := all[..|all| - 1];
      SkippedCount(c, front)
      + if Buffered(VerifiedRows(c, front), all[|all| - 1].0) || Verifiable(c, all[|all| - 1]) then 0 else 1
  }

  method VerifiedChunks(c: Primitives, all: Bodies) returns (chunks: seq<Chunk>, skipped: nat)
    ensures chunks == VerifiedRows(c, all) && skipped == SkippedCount(c, all)
  {
    chunks, skipped := [], 0;
    for i := 0 to |all|
      invariant chunks == VerifiedRows(c, all[..i]) && skipped == SkippedCount(c, all[..i])
    {
      assert all[..i + 1][..i] == all[..i];
      var (hash, body) := all[i];
      if Buffered(chunks, hash) {
        continue;
      }
      var size := VerifiedSize(c, hash, body);
      if size.None? {
        skipped := skipped + 1;
      } else {
        chunks := chunks + [Chunk(hash, size.value, body)];
      }
    }
    assert all[..|all|] == all;
  }

  /** The copied rows are verified, cover exactly the hashes some body verifies for, without
      repetition. */
  lemma {:induction false} VerifiedRowsMeaning(c: Primitives, all: Bodies)
    ensures forall i :: 0 <= i < |VerifiedRows(c, all)| ==>
              var r := VerifiedRows(c, all)[i];
              (r.hash, r.body) in all && Verify(c, r.hash, r.body, r.size).Some? && Verifiable(c, (r.hash, r.body))
    ensures forall k :: 0 <= k < |all| && Verifiable(c, all[k]) ==> Buffered(VerifiedRows(c, all), all[k].0)
    ensures forall i, j :: 0 <= i < j < |VerifiedRows(c, all)| ==>
              VerifiedRows(c, all)[i].hash != VerifiedRows(c, all)[j].hash
  {
    if all != [] {
      var n := |all| - 1;
      VerifiedRowsMeaning(c, all[..n]);
      var before, rows := VerifiedRows(c, all[..n]), VerifiedRows(c, all);
      assert all == all[..n] + [all[n]];
      forall k | 0 <= k < |all| && Verifiable(c, all[k])
        ensures Buffered(rows, all[k].0)
      {
        if k < n {
          assert all[..n][k] == all[k];
          var i :| 0 <= i < |before| && before[i].hash == all[k].0;
          assert rows[i] == before[i];
        } else if Buffered(before, all[n].0) {
          assert rows == before;
        } else {
          assert rows[|before|].hash == all[n].0;
        }
      }
    }
  }

  function VerifiedManifests(c: Primitives, all: Bodies): Bodies {
    if all == [] then []
    else
      var before := VerifiedManifests(c, all[..|all| - 1]);
      var last := all[|all| - 1];
      if c.sha(last.1) == last.0 then before + [last] else before
  }

  method CollectManifests(c: Primitives, all: Bodies) returns (out: Bodies)
    ensures out == VerifiedManifests(c, all)
  {
    out := [];
    for i := 0 to |all|
      invariant out == VerifiedManifests(c, all[..i])
    {
      assert all[..i + 1][..i] == all[..i];
      if c.sha(all[i].1) == all[i].0 {
        out := out + [all[i]];
      }
    }
    assert all[..|all|] == all;
  }

  // ------------------------------------------------------------------- the steps

  datatype Pc = Idle | FloorInForce | SnapshotsRead(snapshots: seq<Source>) | Removing(next: nat) | Finished

  datatype World = World(store: Store, sources: seq<Source>, pc: Pc)

  datatype Event =
    | Begin(readFails: bool, raiseFails: bool)
    | ReadAll(fails: bool)
    | Import(fails: bool)
    | RemoveNext(fails: bool)
    | MarkDone(fails: bool)
    | Crash                              // and every later restart
    | Meanwhile(e: StoreAgreement.Event) // the session's own operations

  /** What a session does of its own: anything but the import, which only the move performs. */
  predicate SessionOp(op: StoreAgreement.Op) {
    !op.DoImportLegacy?
  }

  function Stop(w: World): World {
    w.(pc := Idle)
  }

  /** The floor first, on its own: every source's pointers, in one transaction. */
  function BeginStep(w: World, fails: bool): World {
    if !w.pc.Idle? then w
    else if w.store.migration.Done? then w.(pc := Finished)
    else if fails then w
    else w.(store := RaiseLegacyFloor(w.store, AllSlots(w.sources), false), pc := FloorInForce)
  }

  /** The import transaction over everything that was read. */
  function Imported(c: Primitives, store: Store, snapshots: seq<Source>, fails: bool): Store {
    ImportLegacy(store, VerifiedRows(c, AllChunks(snapshots)), VerifiedManifests(c, AllManifests(snapshots)),
                 AllSlots(snapshots), fails)
  }

  predicate AllCopied(store: Store, chunks: seq<Chunk>) {
    forall i :: 0 <= i < |chunks| ==> HasChunk(store, chunks[i].hash)
  }

  function ImportStep(c: Primitives, w: World, fails: bool): World {
    if !w.pc.SnapshotsRead? then w
    else
      var store := Imported(c, w.store, w.pc.snapshots, fails);
      if fails || !AllCopied(store, VerifiedRows(c, AllChunks(w.pc.snapshots))) then World(store, w.sources, Idle)
      else World(store, w.sources, Removing(0))
  }

  function RemoveStep(w: World, fails: bool): World {
    if !w.pc.Removing? || w.pc.next >= |w.sources| then w
    else if fails then Stop(w)
    else World(w.store, w.sources[w.pc.next := w.sources[w.pc.next].(removed := true)], Removing(w.pc.next + 1))
  }

  function MarkStep(w: World, fails: bool): World {
    if !w.pc.Removing? || w.pc.next < |w.sources| then w
    else if fails then Stop(w)
    else World(w.store.(migration := Done), w.sources, Finished)
  }

  function Next(c: Primitives, w: World, e: Event): World {
    match e
    case Begin(readFails, raiseFails) => BeginStep(w, readFails || raiseFails)
    case ReadAll(fails) =>
      if !w.pc.FloorInForce? then w else if fails then Stop(w) else w.(pc := SnapshotsRead(w.sources))
    case Import(fails) => ImportStep(c, w, fails)
    case RemoveNext(fails) => RemoveStep(w, fails)
    case MarkDone(fails) => MarkStep(w, fails)
    case Crash => World(w.store.(pending := [], pendingBytes := 0), w.sources, Idle)
    case Meanwhile(op) =>
      if (w.pc.Idle? || w.pc.Finished?) && SessionOp(op.op) then w.(store := StoreAgreement.Apply(c, w.store, op))
      else w
  }

  function After(c: Primitives, w: World, run: seq<Event>): World {
    if run == [] then w else Next(c, After(c, w, run[..|run| - 1]), run[|run| - 1])
  }

  // ------------------------------------------------------------------ what is kept

  /** Everything a source held that matters is in the store, but for chunks that were `dropped`. */
  predicate Carried(c: Primitives, store: Store, s: Source, dropped: set<Text>) {
    && Floor.MaxSequence(s.slots) <= store.row.floor
    && forall k :: 0 <= k < |s.chunks| && Verifiable(c, s.chunks[k]) ==>
         s.chunks[k].0 in store.table || s.chunks[k].0 in dropped
  }

  predicate TableVerifies(c: Primitives, table: map<Text, Chunk>) {
    forall h :: h in table ==> table[h].hash == h && Verify(c, h, table[h].body, table[h].size).Some?
  }

  predicate StoreOk(c: Primitives, s: Store) {
    && Floor.Sound(s.row)
    && TableVerifies(c, s.table)
    && forall i :: 0 <= i < |s.pending| ==> Acceptable(c, s.pending[i])
  }

  predicate FloorCovers(w: World) {
    Floor.MaxSequence(AllSlots(w.sources)) <= w.store.row.floor
  }

  /** The invariant of every reachable world: nothing is removed before it is carried. */
  predicate Safe(c: Primitives, w: World, dropped: set<Text>) {
    && StoreOk(c, w.store)
    && (forall i :: 0 <= i < |w.sources| && w.sources[i].removed ==> Carried(c, w.store, w.sources[i], dropped))
    && (w.store.migration.Done? ==> forall i :: 0 <= i < |w.sources| ==> w.sources[i].removed)
    && match w.pc
       case FloorInForce => FloorCovers(w)
       case SnapshotsRead(snapshots) => FloorCovers(w) && snapshots == w.sources
       case Removing(next) =>
         && next <= |w.sources|
         && (forall i :: 0 <= i < |w.sources| ==> Carried(c, w.store, w.sources[i], dropped))
         && (forall i :: 0 <= i < next ==> w.sources[i].removed)
       case _ => true
  }

  /** The hashes a step takes out of the table. */
  function Lost(a: Store, b: Store): set<Text> {
    a.table.Keys - b.table.Keys
  }

  lemma CarriedMoves(c: Primitives, a: Store, b: Store, s: Source, dropped: set<Text>)
    requires a.row.floor <= b.row.floor && Carried(c, a, s, dropped)
    ensures Carried(c, b, s, dropped + Lost(a, b))
  {
  }

  lemma AllCarriedMove(c: Primitives, a: Store, b: Store, sources: seq<Source>, dropped: set<Text>)
    requires a.row.floor <= b.row.floor
    requires forall i :: 0 <= i < |sources| && sources[i].removed ==> Carried(c, a, sources[i], dropped)
    ensures forall i :: 0 <= i < |sources| && sources[i].removed ==> Carried(c, b, sources[i], dropped + Lost(a, b))
  {
    forall i | 0 <= i < |sources| && sources[i].removed ensures Carried(c, b, sources[i], dropped + Lost(a, b)) {
      CarriedMoves(c, a, b, sources[i], dropped);
    }
  }

  /** A store only grows: its floor and its set of chunks. */
  predicate Grows(a: Store, b: Store) {
    a.row.floor <= b.row.floor && a.table.Keys <= b.table.Keys
  }

  lemma {:induction false} MaxOfConcat(a: Slots, b: Slots)
    ensures Floor.MaxSequence(a + b) == Max(Floor.MaxSequence(a), Floor.MaxSequence(b))
    decreases |b|
  {
    if b == [] {
      assert a + b == a;
      Floor.MaxSequenceBounds(a);
    } else {
      assert (a + b)[..|a + b| - 1] == a + b[..|b| - 1];
      MaxOfConcat(a, b[..|b| - 1]);
      Floor.MaxSequenceBounds(a);
    }
  }

  lemma {:induction false} AllSlotsCover(sources: seq<Source>, i: nat)
    requires i < |sources| && !sources[i].removed
    ensures Floor.MaxSequence(sources[i].slots) <= Floor.MaxSequence(AllSlots(sources))
  {
    var n := |sources| - 1;
    MaxOfConcat(AllSlots(sources[..n]), SlotsOf(sources[n]));
    if i < n {
      AllSlotsCover(sources[..n], i);
    }
  }

  lemma {:induction false} AllChunksCover(sources: seq<Source>, i: nat, k: nat)
    requires i < |sources| && !sources[i].removed && k < |sources[i].chunks|
    ensures sources[i].chunks[k] in AllChunks(sources)
  {
    var n := |sources| - 1;
    if i < n {
      AllChunksCover(sources[..n], i, k);
    }
  }

  lemma InsertKeepsVerified(c: Primitives, table: map<Text, Chunk>, rows: seq<Chunk>)
    requires TableVerifies(c, table)
    requires forall i :: 0 <= i < |rows| ==> Verify(c, rows[i].hash, rows[i].body, rows[i].size).Some?
    ensures TableVerifies(c, InsertRows(table, rows))
    ensures table.Keys <= InsertRows(table, rows).Keys
    ensures forall i :: 0 <= i < |rows| ==> rows[i].hash in InsertRows(table, rows)
  {
    InsertedAreIn(table, rows);
    var after := InsertRows(table, rows);
    forall h | h in after ensures after[h].hash == h && Verify(c, h, after[h].body, after[h].size).Some? {
      if h !in table {
        var i :| 0 <= i < |rows| && rows[i].hash == h && after[h] == rows[i];
      }
    }
    forall i | 0 <= i < |rows| ensures rows[i].hash in after {
      assert rows[i].hash in set i | 0 <= i < |rows| :: rows[i].hash;
    }
  }

  lemma FlushGrows(c: Primitives, s: Store, fails: bool)
    requires StoreOk(c, s)
    ensures StoreOk(c, Flush(s, fails)) && Grows(s, Flush(s, fails))
  {
    InsertKeepsVerified(c, s.table, s.pending);
  }

  lemma PutGrows(c: Primitives, s: Store, chunk: Chunk, fails: bool)
    requires StoreOk(c, s)
    ensures StoreOk(c, Put(c, s, chunk, fails)) && Grows(s, Put(c, s, chunk, fails))
  {
    if Acceptable(c, chunk) && !Buffered(s.pending, chunk.hash) {
      FlushGrows(c, s.(pending := s.pending + [chunk], pendingBytes := s.pendingBytes + |chunk.body|), fails);
    }
  }

  lemma PromoteGrows(c: Primitives, s: Store, p: Floor.Pointer, chunks: Option<seq<Text>>, fails: bool)
    requires StoreOk(c, s)
    ensures StoreOk(c, Promote(s, p, chunks, fails)) && Grows(s, Promote(s, p, chunks, fails))
  {
    InsertKeepsVerified(c, s.table, s.pending);
    Floor.NextIsSound(s.row, PromotionStep(s, p, chunks, fails));
  }

  lemma ReadShrinks(c: Primitives, s: Store, hash: Text, size: int, fails: bool)
    requires StoreOk(c, s)
    ensures StoreOk(c, Read(c, s, hash, size, fails).0) && Read(c, s, hash, size, fails).0.row == s.row
    ensures Read(c, s, hash, size, fails).0.migration == s.migration
  {
    FlushGrows(c, s, fails);
  }

  lemma PruneShrinks(c: Primitives, s: Store, fails: bool)
    requires StoreOk(c, s)
    ensures StoreOk(c, Prune(c, s, fails)) && Prune(c, s, fails).row == s.row
    ensures Prune(c, s, fails).migration == s.migration
  {
    FlushGrows(c, s, fails);
  }

  /** A session's operations keep the store in order and its floor in force. */
  lemma SessionOpKeeps(c: Primitives, s: Store, e: StoreAgreement.Event)
    requires StoreOk(c, s) && SessionOp(e.op)
    ensures StoreOk(c, StoreAgreement.Apply(c, s, e)) && s.row.floor <= StoreAgreement.Apply(c, s, e).row.floor
    ensures StoreAgreement.Apply(c, s, e).migration == s.migration
  {
    match e.op
    case DoPut(chunk) => PutGrows(c, s, chunk, e.fails);
    case DoFlush => FlushGrows(c, s, e.fails);
    case DoRead(hash, size) => ReadShrinks(c, s, hash, size, e.fails);
    case DoPrune => PruneShrinks(c, s, e.fails);
    case DoPromote(p, chunks) => PromoteGrows(c, s, p, chunks, e.fails);
    case DoPutManifest(body) =>
    case DoGetManifest(hash) =>
    case DoClearActiveIf(p) => Floor.NextIsSound(s.row, Floor.Step(Floor.ClearActiveIf(p), !e.fails));
    case DoRaiseLegacyFloor(slots) => Floor.NextIsSound(s.row, Floor.Step(Floor.MergeSlots(slots), !e.fails));
  }

  /** Only a prune and a read that evicts take chunks out of the table. */
  lemma OnlyPrunesAndReadsDrop(c: Primitives, w: World, e: Event)
    requires !(e.Meanwhile? && (e.e.op.DoPrune? || e.e.op.DoRead?))
    ensures Lost(w.store, Next(c, w, e).store) == {}
  {
    match e
    case Meanwhile(op) => TableGrows(c, w.store, op);
    case Import(fails) =>
      if w.pc.SnapshotsRead? {
        InsertedAreIn(w.store.table, VerifiedRows(c, AllChunks(w.pc.snapshots)));
      }
    case _ =>
  }

  lemma TableGrows(c: Primitives, s: Store, e: StoreAgreement.Event)
    requires !e.op.DoPrune? && !e.op.DoRead?
    ensures s.table.Keys <= StoreAgreement.Apply(c, s, e).table.Keys
  {
    match e.op
    case DoPut(chunk) => InsertedAreIn(s.table, s.pending + [chunk]);
    case DoImportLegacy(rows, _, _) => InsertedAreIn(s.table, rows);
    case _ => InsertedAreIn(s.table, s.pending);
  }

  lemma BeginIsSafe(c: Primitives, w: World, e: Event, dropped: set<Text>)
    requires Safe(c, w, dropped) && e.Begin?
    ensures Safe(c, Next(c, w, e), dropped)
  {
    var slots := AllSlots(w.sources);
    Floor.NextIsSound(w.store.row, Floor.Step(Floor.MergeSlots(slots), true));
    Floor.MergeRaisesToMaximum(w.store.row, slots);
    Floor.TriggerNeverFires(w.store.row, Floor.MergeSlots(slots));
  }

  lemma ImportedEffect(c: Primitives, store: Store, snapshots: seq<Source>)
    requires Floor.Sound(store.row)
    ensures var after := Imported(c, store, snapshots, false);
            && Floor.Sound(after.row)
            && after.row.floor == Max(store.row.floor, Floor.MaxSequence(AllSlots(snapshots)))
            && after.table == InsertRows(store.table, VerifiedRows(c, AllChunks(snapshots)))
            && after.pending == store.pending
            && (after.migration.Done? <==> store.migration.Done?)
    ensures Imported(c, store, snapshots, true) == store
  {
    var slots := AllSlots(snapshots);
    Floor.NextIsSound(store.row, Floor.Step(Floor.MergeSlots(slots), true));
    Floor.MergeRaisesToMaximum(store.row, slots);
    Floor.TriggerNeverFires(store.row, Floor.MergeSlots(slots));
  }

  lemma ImportedStoreIsOk(c: Primitives, store: Store, snapshots: seq<Source>)
    requires StoreOk(c, store)
    ensures var after := Imported(c, store, snapshots, false);
            && StoreOk(c, after) && Grows(store, after)
            && AllCopied(after, VerifiedRows(c, AllChunks(snapshots)))
  {
    ImportedEffect(c, store, snapshots);
    VerifiedRowsMeaning(c, AllChunks(snapshots));
    InsertKeepsVerified(c, store.table, VerifiedRows(c, AllChunks(snapshots)));
  }

  lemma ImportedCarries(c: Primitives, store: Store, sources: seq<Source>, i: nat, dropped: set<Text>)
    requires StoreOk(c, store) && i < |sources| && !sources[i].removed
    ensures Carried(c, Imported(c, store, sources, false), sources[i], dropped)
  {
    var after := Imported(c, store, sources, false);
    var all := AllChunks(sources);
    ImportedEffect(c, store, sources);
    VerifiedRowsMeaning(c, all);
    InsertKeepsVerified(c, store.table, VerifiedRows(c, all));
    AllSlotsCover(sources, i);
    forall k | 0 <= k < |sources[i].chunks| && Verifiable(c, sources[i].chunks[k])
      ensures sources[i].chunks[k].0 in after.table
    {
      AllChunksCover(sources, i, k);
      var at :| 0 <= at < |all| && all[at] == sources[i].chunks[k];
      assert Buffered(VerifiedRows(c, all), all[at].0);
    }
  }

  /** The import transaction carries every source that is still there. */
  lemma ImportCarries(c: Primitives, w: World, dropped: set<Text>)
    requires Safe(c, w, dropped) && w.pc.SnapshotsRead?
    ensures Safe(c, ImportStep(c, w, false), dropped)
    ensures ImportStep(c, w, false) == World(Imported(c, w.store, w.sources, false), w.sources, Removing(0))
  {
    var store := Imported(c, w.store, w.sources, false);
    ImportedEffect(c, w.store, w.sources);
    ImportedStoreIsOk(c, w.store, w.sources);
    forall i | 0 <= i < |w.sources| ensures Carried(c, store, w.sources[i], dropped) {
      if !w.sources[i].removed {
        ImportedCarries(c, w.store, w.sources, i, dropped);
      } else {
        CarriedMoves(c, w.store, store, w.sources[i], dropped);
        assert Lost(w.store, store) == {};
      }
    }
  }

  lemma ImportIsSafe(c: Primitives, w: World, fails: bool, dropped: set<Text>)
    requires Safe(c, w, dropped)
    ensures Safe(c, ImportStep(c, w, fails), dropped)
  {
    if w.pc.SnapshotsRead? {
      ImportedEffect(c, w.store, w.sources);
      if !fails { ImportCarries(c, w, dropped); }
    }
  }

  lemma MeanwhileIsSafe(c: Primitives, w: World, op: StoreAgreement.Event, dropped: set<Text>)
    requires Safe(c, w, dropped)
    ensures Safe(c, Next(c, w, Meanwhile(op)), dropped + Lost(w.store, Next(c, w, Meanwhile(op)).store))
  {
    if (w.pc.Idle? || w.pc.Finished?) && SessionOp(op.op) {
      SessionOpKeeps(c, w.store, op);
      AllCarriedMove(c, w.store, StoreAgreement.Apply(c, w.store, op), w.sources, dropped);
    } else {
      assert Lost(w.store, w.store) == {} && dropped + {} == dropped;
    }
  }

  lemma SimpleStepIsSafe(c: Primitives, w: World, e: Event, dropped: set<Text>)
    requires Safe(c, w, dropped) && !e.Begin? && !e.Import? && !e.Meanwhile?
    ensures Safe(c, Next(c, w, e), dropped)
  {
  }

  /** Every step, crash and operation in between keeps the world safe. */
  lemma NextIsSafe(c: Primitives, w: World, e: Event, dropped: set<Text>)
    requires Safe(c, w, dropped)
    ensures Safe(c, Next(c, w, e), dropped + Lost(w.store, Next(c, w, e).store))
  {
    if e.Meanwhile? {
      MeanwhileIsSafe(c, w, e.e, dropped);
    } else {
      OnlyPrunesAndReadsDrop(c, w, e);
      assert dropped + Lost(w.store, Next(c, w, e).store) == dropped;
      match e
      case Begin(_, _) => BeginIsSafe(c, w, e, dropped);
      case Import(fails) => ImportIsSafe(c, w, fails, dropped);
      case _ => SimpleStepIsSafe(c, w, e, dropped);
    }
  }

  /** A world as the library finds it: nothing moved yet. */
  predicate Initial(c: Primitives, w: World) {
    && StoreOk(c, w.store) && !w.store.migration.Done? && w.pc.Idle?
    && forall i :: 0 <= i < |w.sources| ==> !w.sources[i].removed
  }

  /** Every hash that some step of the run has taken out of the table. */
  function Dropped(c: Primitives, w: World, run: seq<Event>): set<Text> {
    if run == [] then {}
    else
      var front := run[..|run| - 1];
      Dropped(c, w, front) + Lost(After(c, w, front).store, After(c, w, run).store)
  }

  lemma {:induction false} ReachableIsSafe(c: Primitives, w: World, run: seq<Event>)
    requires Initial(c, w)
    ensures Safe(c, After(c, w, run), Dropped(c, w, run))
  {
    if run != [] {
      ReachableIsSafe(c, w, run[..|run| - 1]);
      NextIsSafe(c, After(c, w, run[..|run| - 1]), run[|run| - 1], Dropped(c, w, run[..|run| - 1]));
    }
  }

  predicate SameContents(a: seq<Source>, b: seq<Source>) {
    |a| == |b| && forall i :: 0 <= i < |a| ==> a[i].(removed := false) == b[i].(removed := false)
  }

  lemma NextKeepsContents(c: Primitives, w: World, e: Event)
    ensures SameContents(Next(c, w, e).sources, w.sources)
  {
    if e.RemoveNext? && w.pc.Removing? && w.pc.next < |w.sources| && !e.fails {
      assert Next(c, w, e).sources == w.sources[w.pc.next := w.sources[w.pc.next].(removed := true)];
    } else {
      assert Next(c, w, e).sources == w.sources;
    }
  }

  lemma {:induction false} SourcesKeepTheirContents(c: Primitives, w: World, run: seq<Event>)
    ensures SameContents(After(c, w, run).sources, w.sources)
  {
    if run != [] {
      SourcesKeepTheirContents(c, w, run[..|run| - 1]);
      NextKeepsContents(c, After(c, w, run[..|run| - 1]), run[|run| - 1]);
    }
  }

  /** At every reachable point, whatever crashed, failed or ran in between: a source that is gone
      left its highest pointer under the floor, and every chunk of it that verifies is in the table,
      verified, unless a prune or an evicting read has since taken it out. */
  lemma NothingIsLost(c: Primitives, w: World, run: seq<Event>, i: nat)
    requires Initial(c, w) && i < |w.sources|
    ensures |After(c, w, run).sources| == |w.sources|
    ensures After(c, w, run).sources[i].removed ==>
              && Floor.MaxSequence(w.sources[i].slots) <= After(c, w, run).store.row.floor
              && forall k :: 0 <= k < |w.sources[i].chunks| && Verifiable(c, w.sources[i].chunks[k]) ==>
                   var h := w.sources[i].chunks[k].0;
                   var table := After(c, w, run).store.table;
                   || h in Dropped(c, w, run)
                   || (h in table && Verify(c, h, table[h].body, table[h].size).Some?)
  {
    ReachableIsSafe(c, w, run);
    SourcesKeepTheirContents(c, w, run);
  }

  /** Without a prune or a read in between nothing is dropped. */
  lemma {:induction false} GentleRunsDropNothing(c: Primitives, w: World, run: seq<Event>)
    requires forall i :: 0 <= i < |run| ==> !(run[i].Meanwhile? && (run[i].e.op.DoPrune? || run[i].e.op.DoRead?))
    ensures Dropped(c, w, run) == {}
  {
    if run != [] {
      GentleRunsDropNothing(c, w, run[..|run| - 1]);
      OnlyPrunesAndReadsDrop(c, After(c, w, run[..|run| - 1]), run[|run| - 1]);
    }
  }

  // ------------------------------------------------------------------- convergence

  /** The floor one uninterrupted run ends with. */
  function TargetFloor(w: World): int {
    Max(w.store.row.floor, Floor.MaxSequence(AllSlots(w.sources)))
  }

  /** A hash the finished migration must hold: it was there, or some legacy body verifies for it. */
  ghost predicate TargetHash(c: Primitives, w: World, h: Text) {
    || h in w.store.table
    || exists k :: 0 <= k < |AllChunks(w.sources)|
                   && AllChunks(w.sources)[k].0 == h && Verifiable(c, AllChunks(w.sources)[k])
  }

  predicate OnlyMigrating(run: seq<Event>) {
    forall i :: 0 <= i < |run| ==> !run[i].Meanwhile?
  }

  /** No restart ever raises the floor past the target or adds another chunk. */
  ghost predicate WithinTarget(c: Primitives, w0: World, w: World) {
    && w.store.row.floor <= TargetFloor(w0)
    && w0.store.row.floor <= w.store.row.floor
    && w0.store.table.Keys <= w.store.table.Keys
    && (forall h :: h in w.store.table ==> TargetHash(c, w0, h))
    && Floor.MaxSequence(AllSlots(w.sources)) <= TargetFloor(w0)
    && (forall x :: x in AllChunks(w.sources) ==> x in AllChunks(w0.sources))
  }

  function Without(sources: seq<Source>, i: nat): seq<Source>
    requires i < |sources|
  {
    sources[i := sources[i].(removed := true)]
  }

  lemma WithoutFront(sources: seq<Source>, i: nat)
    requires i < |sources| - 1
    ensures Without(sources, i)[..|sources| - 1] == Without(sources[..|sources| - 1], i)
    ensures Without(sources, i)[|sources| - 1] == sources[|sources| - 1]
  {
  }

  lemma LastSlots(sources: seq<Source>)
    requires sources != []
    ensures var n := |sources| - 1;
            Floor.MaxSequence(AllSlots(sources)) ==
              Max(Floor.MaxSequence(AllSlots(sources[..n])), Floor.MaxSequence(SlotsOf(sources[n])))
  {
    MaxOfConcat(AllSlots(sources[..|sources| - 1]), SlotsOf(sources[|sources| - 1]));
  }

  /** The highest sequence any source can still be read to have. */
  function TopSlot(sources: seq<Source>): int {
    Floor.MaxSequence(AllSlots(sources))
  }

  lemma RemovingLastShrinks(sources: seq<Source>)
    requires sources != []
    ensures TopSlot(Without(sources, |sources| - 1)) <= TopSlot(sources)
  {
    var n := |sources| - 1;
    var after := Without(sources, n);
    LastSlots(sources);
    LastSlots(after);
    assert after[..n] == sources[..n];
    assert SlotsOf(after[n]) == [];
    Floor.MaxSequenceBounds(SlotsOf(sources[n]));
  }

  lemma {:induction false} RemovalShrinksSlots(sources: seq<Source>, i: nat)
    requires i < |sources|
    ensures TopSlot(Without(sources, i)) <= TopSlot(sources)
  {
    var n := |sources| - 1;
    if i == n {
      RemovingLastShrinks(sources);
    } else {
      var front := sources[..n];
      RemovalShrinksSlots(front, i);
      WithoutFront(sources, i);
      LastSlots(sources);
      LastSlots(Without(sources, i));
      assert TopSlot(Without(sources, i)) == Max(TopSlot(Without(front, i)), Floor.MaxSequence(SlotsOf(sources[n])));
    }
  }

  lemma {:induction false} RemovalShrinksChunks(sources: seq<Source>, i: nat)
    requires i < |sources|
    ensures forall x :: x in AllChunks(Without(sources, i)) ==> x in AllChunks(sources)
  {
    var n := |sources| - 1;
    if i < n {
      WithoutFront(sources, i);
      RemovalShrinksChunks(sources[..n], i);
    } else {
      assert Without(sources, i)[..n] == sources[..n];
    }
  }

  lemma ImportedHashesAreTargets(c: Primitives, w0: World, table: map<Text, Chunk>, all: Bodies)
    requires forall h :: h in table ==> TargetHash(c, w0, h)
    requires forall x :: x in all ==> x in AllChunks(w0.sources)
    ensures forall h :: h in InsertRows(table, VerifiedRows(c, all)) ==> TargetHash(c, w0, h)
  {
    var rows := VerifiedRows(c, all);
    var after := InsertRows(table, rows);
    VerifiedRowsMeaning(c, all);
    InsertedAreIn(table, rows);
    forall h | h in after && h !in table ensures TargetHash(c, w0, h) {
      var i :| 0 <= i < |rows| && rows[i].hash == h && after[h] == rows[i];
      assert (rows[i].hash, rows[i].body) in AllChunks(w0.sources);
      var k :| 0 <= k < |AllChunks(w0.sources)| && AllChunks(w0.sources)[k] == (rows[i].hash, rows[i].body);
    }
  }

  lemma ImportStaysWithin(c: Primitives, w0: World, w: World)
    requires Safe(c, w, {}) && WithinTarget(c, w0, w) && w.pc.SnapshotsRead?
    ensures WithinTarget(c, w0, ImportStep(c, w, false))
  {
    ImportCarries(c, w, {});
    ImportedEffect(c, w.store, w.sources);
    ImportedHashesAreTargets(c, w0, w.store.table, AllChunks(w.sources));
    InsertedAreIn(w.store.table, VerifiedRows(c, AllChunks(w.sources)));
  }

  lemma NextStaysWithin(c: Primitives, w0: World, w: World, e: Event)
    requires Safe(c, w, {}) && WithinTarget(c, w0, w) && !e.Meanwhile?
    ensures WithinTarget(c, w0, Next(c, w, e))
  {
    match e
    case Begin(_, _) =>
      Floor.MergeRaisesToMaximum(w.store.row, AllSlots(w.sources));
      Floor.TriggerNeverFires(w.store.row, Floor.MergeSlots(AllSlots(w.sources)));
    case Import(fails) =>
      if w.pc.SnapshotsRead? {
        ImportedEffect(c, w.store, w.sources);
        if !fails { ImportStaysWithin(c, w0, w); }
      }
    case RemoveNext(fails) =>
      if w.pc.Removing? && w.pc.next < |w.sources| {
        RemovalShrinksSlots(w.sources, w.pc.next);
        RemovalShrinksChunks(w.sources, w.pc.next);
      }
    case _ =>
  }

  lemma {:induction false} RunsStayWithin(c: Primitives, w: World, run: seq<Event>)
    requires Initial(c, w) && OnlyMigrating(run)
    ensures WithinTarget(c, w, After(c, w, run))
  {
    if run == [] {
      forall h | h in w.store.table ensures TargetHash(c, w, h) {}
    } else {
      var n := |run| - 1;
      RunsStayWithin(c, w, run[..n]);
      ReachableIsSafe(c, w, run[..n]);
      GentleRunsDropNothing(c, w, run[..n]);
      NextStaysWithin(c, w, After(c, w, run[..n]), run[n]);
    }
  }

  lemma {:induction false} AllSlotsBelow(sources: seq<Source>, bound: int)
    requires forall i :: 0 <= i < |sources| ==> Floor.MaxSequence(sources[i].slots) <= bound
    requires -1 <= bound
    ensures Floor.MaxSequence(AllSlots(sources)) <= bound
  {
    if sources != [] {
      var n := |sources| - 1;
      AllSlotsBelow(sources[..n], bound);
      MaxOfConcat(AllSlots(sources[..n]), SlotsOf(sources[n]));
    }
  }

  lemma {:induction false} ChunkComesFromSource(sources: seq<Source>, x: (Text, Bytes))
    requires x in AllChunks(sources)
    ensures exists i, k :: 0 <= i < |sources| && 0 <= k < |sources[i].chunks| && sources[i].chunks[k] == x
  {
    var n := |sources| - 1;
    if x in ChunksOf(sources[n]) {
      var k :| 0 <= k < |sources[n].chunks| && sources[n].chunks[k] == x;
    } else {
      ChunkComesFromSource(sources[..n], x);
      var i, k :| 0 <= i < n && 0 <= k < |sources[..n][i].chunks| && sources[..n][i].chunks[k] == x;
      assert sources[i].chunks[k] == x;
    }
  }

  /** However often it crashed and restarted, a migration that is done has the one floor and the one
      set of chunks that an uninterrupted run gives. */
  lemma RestartsConverge(c: Primitives, w: World, run: seq<Event>)
    requires Initial(c, w) && OnlyMigrating(run)
    requires After(c, w, run).store.migration.Done?
    ensures After(c, w, run).store.row.floor == TargetFloor(w)
    ensures forall h :: h in After(c, w, run).store.table <==> TargetHash(c, w, h)
  {
    var end := After(c, w, run);
    RunsStayWithin(c, w, run);
    ReachableIsSafe(c, w, run);
    GentleRunsDropNothing(c, w, run);
    SourcesKeepTheirContents(c, w, run);
    AllSlotsBelow(w.sources, end.store.row.floor);
    forall h ensures h in end.store.table <==> TargetHash(c, w, h) {
      if TargetHash(c, w, h) && h !in w.store.table {
        var at :| 0 <= at < |AllChunks(w.sources)|
                  && AllChunks(w.sources)[at].0 == h && Verifiable(c, AllChunks(w.sources)[at]);
        ChunkComesFromSource(w.sources, AllChunks(w.sources)[at]);
        var i, k :| 0 <= i < |w.sources| && 0 <= k < |w.sources[i].chunks|
                    && w.sources[i].chunks[k] == AllChunks(w.sources)[at];
        assert Carried(c, end.store, end.sources[i], {});
      }
    }
  }

  /** The import of the run has committed. */
  predicate HasImported(c: Primitives, w: World, run: seq<Event>) {
    run != [] && (
      HasImported(c, w, run[..|run| - 1])
      || (run[|run| - 1] == Import(false) && After(c, w, run[..|run| - 1]).pc.SnapshotsRead?))
  }

  /** The final mark has been made, with every source removed. */
  predicate HasFinished(c: Primitives, w: World, run: seq<Event>) {
    run != [] && (
      var before := After(c, w, run[..|run| - 1]);
      || HasFinished(c, w, run[..|run| - 1])
      || (run[|run| - 1] == MarkDone(false) && before.pc.Removing? && before.pc.next >= |before.sources|))
  }

  /** The recorded state says exactly how far the move has come, whatever crashed or ran in between. */
  lemma {:induction false} StateTellsHowFar(c: Primitives, w: World, run: seq<Event>)
    requires Initial(c, w) && w.store.migration.NotStarted?
    ensures After(c, w, run).store.migration ==
            if HasFinished(c, w, run) then Done else if HasImported(c, w, run) then Copied else NotStarted
  {
    if run != [] {
      var front, e := run[..|run| - 1], run[|run| - 1];
      StateTellsHowFar(c, w, front);
      ReachableIsSafe(c, w, front);
      StateMoves(c, After(c, w, front), e);
    }
  }

  lemma StateMoves(c: Primitives, w: World, e: Event)
    requires StoreOk(c, w.store)
    ensures Next(c, w, e).store.migration ==
            if e == MarkDone(false) && w.pc.Removing? && w.pc.next >= |w.sources| then Done
            else if e == Import(false) && w.pc.SnapshotsRead? && !w.store.migration.Done? then Copied
            else w.store.migration
  {
    match e
    case Meanwhile(op) => if SessionOp(op.op) { SessionOpKeeps(c, w.store, op); }
    case Import(fails) =>
      if w.pc.SnapshotsRead? {
        Floor.TriggerNeverFires(w.store.row, Floor.MergeSlots(AllSlots(w.pc.snapshots)));
      }
    case _ =>
  }

  // ------------------------------------------------------------- reading what was moved

  /** A body that a read does not refuse for its length. */
  predicate Readable(body: Bytes) {
    0 < |body| <= MAX_COMPRESSED
  }

  predicate AllReadable(c: Primitives, sources: seq<Source>) {
    forall i, k :: 0 <= i < |sources| && 0 <= k < |sources[i].chunks| && Verifiable(c, sources[i].chunks[k]) ==>
      Readable(sources[i].chunks[k].1)
  }

  /** The readers of the legacy stores drop every longer body, and an empty one declares no size. */
  predicate Capped(sources: seq<Source>) {
    forall i, k :: 0 <= i < |sources| && 0 <= k < |sources[i].chunks| ==> |sources[i].chunks[k].1| <= MAX_COMPRESSED
  }

  lemma CappedSourcesAreReadable(sha: Bytes -> Text, inflate: Bytes -> Option<Bytes>,
                                 parse: Bytes -> Option<Canonical.Json>, sources: seq<Source>)
    requires Capped(sources)
    ensures AllReadable(OnZstd(sha, inflate, parse), sources)
  {
    assert Zstd.DeclaredContentSize([]).None?;
  }

  /** The copies are what a read accepts exactly when their bodies keep the cap on compressed chunks,
      which the move itself does not check. */
  lemma CopiesAreAcceptableExactly(c: Primitives, all: Bodies)
    ensures StoreAgreement.AllAcceptable(c, VerifiedRows(c, all)) <==>
              forall i :: 0 <= i < |VerifiedRows(c, all)| ==> Readable(VerifiedRows(c, all)[i].body)
  {
    VerifiedRowsMeaning(c, all);
  }

  lemma ReadableSourcesCopyWell(c: Primitives, sources: seq<Source>)
    requires AllReadable(c, sources)
    ensures StoreAgreement.AllAcceptable(c, VerifiedRows(c, AllChunks(sources)))
  {
    var rows := VerifiedRows(c, AllChunks(sources));
    VerifiedRowsMeaning(c, AllChunks(sources));
    CopiesAreAcceptableExactly(c, AllChunks(sources));
    forall i | 0 <= i < |rows| ensures Readable(rows[i].body) {
      ChunkComesFromSource(sources, (rows[i].hash, rows[i].body));
    }
  }

  /** What the import does, as an operation of `StoreAgreement`. */
  function CopyOp(c: Primitives, snapshots: seq<Source>): StoreAgreement.Op {
    StoreAgreement.DoImportLegacy(VerifiedRows(c, AllChunks(snapshots)), VerifiedManifests(c, AllManifests(snapshots)),
                                  AllSlots(snapshots))
  }

  lemma ImportEvent(c: Primitives, s: Store, copied: seq<Chunk>, rows: Bodies, slots: Slots, fails: bool)
    ensures StoreAgreement.Apply(c, s,
                                 StoreAgreement.Event(StoreAgreement.DoImportLegacy(copied, rows, slots), fails)) ==
              ImportLegacy(s, copied, rows, slots, fails)
  {
  }

  lemma ImportKeepsTheStoreSound(c: Primitives, store: Store, snapshots: seq<Source>, fails: bool)
    requires StoreAgreement.Sound(c, store) && AllReadable(c, snapshots)
    ensures StoreAgreement.Importable(c, CopyOp(c, snapshots))
    ensures StoreAgreement.Sound(c, Imported(c, store, snapshots, fails))
  {
    ReadableSourcesCopyWell(c, snapshots);
    StoreAgreement.ApplyKeepsSound(c, store, StoreAgreement.Event(CopyOp(c, snapshots), fails));
    ImportEvent(c, store, VerifiedRows(c, AllChunks(snapshots)), VerifiedManifests(c, AllManifests(snapshots)),
                AllSlots(snapshots), fails);
  }

  lemma NextKeepsTheStoreSound(c: Primitives, w: World, e: Event)
    requires StoreAgreement.Sound(c, w.store) && (w.pc.SnapshotsRead? ==> AllReadable(c, w.pc.snapshots))
    ensures StoreAgreement.Sound(c, Next(c, w, e).store)
  {
    match e
    case Meanwhile(op) =>
      if SessionOp(op.op) { StoreAgreement.ApplyKeepsSound(c, w.store, op); }
    case Import(fails) =>
      if w.pc.SnapshotsRead? {
        ImportKeepsTheStoreSound(c, w.store, w.pc.snapshots, fails);
      }
    case Crash => CrashKeepsSound(c, w.store);
    case _ =>
  }

  lemma CrashKeepsSound(c: Primitives, s: Store)
    requires StoreAgreement.Sound(c, s)
    ensures StoreAgreement.Sound(c, s.(pending := [], pendingBytes := 0))
  {
  }

  /** So a migrated store is one that the agreement with the plain map speaks of, at every point of
      every run. */
  lemma {:induction false} MigratedStoresAreSound(c: Primitives, w: World, run: seq<Event>)
    requires Initial(c, w) && AllReadable(c, w.sources) && StoreAgreement.Sound(c, w.store)
    ensures StoreAgreement.Sound(c, After(c, w, run).store)
  {
    if run != [] {
      var n := |run| - 1;
      var before := After(c, w, run[..n]);
      MigratedStoresAreSound(c, w, run[..n]);
      ReachableIsSafe(c, w, run[..n]);
      SourcesKeepTheirContents(c, w, run[..n]);
      assert AllReadable(c, before.sources);
      NextKeepsTheStoreSound(c, before, run[n]);
    }
  }

  /** A verified body past the cap is moved, is present, and is evicted by the first read of it. */
  lemma OversizedCopyIsEvicted(c: Primitives, store: Store, snapshots: seq<Source>, i: nat)
    requires StoreOk(c, store) && store.pending == [] && i < |VerifiedRows(c, AllChunks(snapshots))|
    requires !Readable(VerifiedRows(c, AllChunks(snapshots))[i].body)
    requires VerifiedRows(c, AllChunks(snapshots))[i].hash !in store.table
    ensures var row, after := VerifiedRows(c, AllChunks(snapshots))[i], Imported(c, store, snapshots, false);
            && HasChunk(after, row.hash)
            && Read(c, after, row.hash, row.size, false).1 == Threw
            && !HasChunk(Read(c, after, row.hash, row.size, false).0, row.hash)
  {
    var rows := VerifiedRows(c, AllChunks(snapshots));
    ImportedEffect(c, store, snapshots);
    VerifiedRowsMeaning(c, AllChunks(snapshots));
    InsertedAreIn(store.table, rows);
    var h := rows[i].hash;
    assert h in set j | 0 <= j < |rows| :: rows[j].hash;
    var j :| 0 <= j < |rows| && rows[j].hash == h && InsertRows(store.table, rows)[h] == rows[j];
    assert j == i;
  }

  // ------------------------------------------------------------- the move as written

  class LegacySource {
    const slots: Slots
    const chunks: Bodies
    const manifests: Bodies
    var removed: bool

    function Value(): Source
      reads this
    {
      Source(slots, chunks, manifests, removed)
    }

    constructor (slots: Slots, chunks: Bodies, manifests: Bodies)
      ensures Value() == Source(slots, chunks, manifests, false)
    {
      this.slots, this.chunks, this.manifests, this.removed := slots, chunks, manifests, false;
    }
  }

  function Values(sources: seq<LegacySource>): (r: seq<Source>)
    reads sources
    ensures |r| == |sources| && forall i :: 0 <= i < |r| ==> r[i] == sources[i].Value()
  {
    seq(|sources|, i requires 0 <= i < |sources| reads sources => sources[i].Value())
  }

  /** Which call throws: reading the floors or the stores, a transaction, the removal with index
      `remove`, or the final mark. */
  datatype Faults = Faults(readPointers: bool, raise: bool, read: bool, imports: bool, remove: nat, mark: bool)

  function Copy(c: Primitives, w: World, f: Faults): World {
    ImportStep(c, Next(c, BeginStep(w, f.readPointers || f.raise), ReadAll(f.read)), f.imports)
  }

  function RemoveAll(w: World, f: Faults, n: nat): World {
    if n == 0 then w else RemoveStep(RemoveAll(w, f, n - 1), n - 1 == f.remove)
  }

  /** The steps of one attempt, one after the other. */
  function Attempt(c: Primitives, w: World, f: Faults): World {
    MarkStep(RemoveAll(Copy(c, w, f), f, |w.sources|), f.mark)
  }

  lemma {:induction false} StoppedStays(w: World, f: Faults, k: nat, n: nat)
    requires k <= n && !RemoveAll(w, f, k).pc.Removing?
    ensures RemoveAll(w, f, n) == RemoveAll(w, f, k)
  {
    if k < n {
      StoppedStays(w, f, k, n - 1);
    }
  }

  lemma CopyByCases(c: Primitives, s: Store, sources: seq<Source>, f: Faults)
    ensures Copy(c, World(s, sources, Idle), f) ==
              if s.migration.Done? then World(s, sources, Finished)
              else if f.readPointers || f.raise then World(s, sources, Idle)
              else
                var raised := RaiseLegacyFloor(s, AllSlots(sources), false);
                if f.read then World(raised, sources, Idle)
                else ImportStep(c, World(raised, sources, SnapshotsRead(sources)), f.imports)
  {
  }

  /** The floor first: a sound row lets nothing but a refused transaction stop it. */
  method PutFloorInForce(store: SqliteCacheStore, slots: Slots, fails: bool) returns (threw: bool)
    requires Floor.Sound(store.row)
    modifies store`row
    ensures store.Value() == RaiseLegacyFloor(old(store.Value()), slots, fails)
    ensures threw == fails && Floor.Sound(store.row)
  {
    Floor.TriggerNeverFires(store.row, Floor.MergeSlots(slots));
    Floor.NextIsSound(store.row, Floor.Step(Floor.MergeSlots(slots), true));
    threw := store.RaiseFloor(slots, fails);
  }

  /** Steps 0 to 4 as written: they stop at the first call that throws. */
  method CopyStores(store: SqliteCacheStore, sources: seq<LegacySource>, f: Faults) returns (pc: Pc)
    requires Floor.Sound(store.row)
    modifies store
    ensures World(store.Value(), Values(sources), pc) ==
              Copy(store.c, World(old(store.Value()), old(Values(sources)), Idle), f)
  {
    CopyByCases(store.c, store.Value(), Values(sources), f);
    if store.migration.Done? {
      return Finished;
    }
    if f.readPointers {
      return Idle;
    }
    var threw := PutFloorInForce(store, AllSlots(Values(sources)), f.raise);
    if threw || f.read {
      return Idle;
    }
    pc := CopySnapshots(store, Values(sources), f.imports);
  }

  method CopySnapshots(store: SqliteCacheStore, snapshots: seq<Source>, fails: bool) returns (pc: Pc)
    requires Floor.Sound(store.row)
    modifies store
    ensures World(store.Value(), snapshots, pc) ==
              ImportStep(store.c, World(old(store.Value()), snapshots, SnapshotsRead(snapshots)), fails)
  {
    var chunks, skipped := VerifiedChunks(store.c, AllChunks(snapshots));
    Floor.TriggerNeverFires(store.row, Floor.MergeSlots(AllSlots(snapshots)));
    var manifests := CollectManifests(store.c, AllManifests(snapshots));
    var threw := store.ImportLegacyStore(chunks, manifests, AllSlots(snapshots), fails);
    if threw {
      return Idle;
    }
    var all := CheckCopied(store, chunks);
    return if all then Removing(0) else Idle;
  }

  /** Step 4: every copied chunk is present. */
  method CheckCopied(store: SqliteCacheStore, chunks: seq<Chunk>) returns (all: bool)
    ensures all == AllCopied(store.Value(), chunks)
  {
    for i := 0 to |chunks|
      invariant forall k :: 0 <= k < i ==> HasChunk(store.Value(), chunks[k].hash)
    {
      if !HasChunk(store.Value(), chunks[i].hash) {
        return false;
      }
    }
    return true;
  }

  /** One store removed. */
  method RemoveOne(sources: seq<LegacySource>, i: nat)
    requires i < |sources| && forall j, k :: 0 <= j < k < |sources| ==> sources[j] != sources[k]
    modifies sources[i]
    ensures Values(sources) == Without(old(Values(sources)), i)
  {
    sources[i].removed := true;
  }

  lemma OneRemoval(w: World, f: Faults, i: nat, s: Store, sources: seq<Source>)
    requires i < |sources| && i != f.remove && RemoveAll(w, f, i) == World(s, sources, Removing(i))
    ensures RemoveAll(w, f, i + 1) == World(s, Without(sources, i), Removing(i + 1))
  {
  }

  /** Step 5 as written: the stores are removed in order, then `done` is recorded. */
  method RemoveSources(store: SqliteCacheStore, sources: seq<LegacySource>, f: Faults) returns (pc: Pc)
    requires forall i, j :: 0 <= i < j < |sources| ==> sources[i] != sources[j]
    modifies store`migration, sources
    ensures World(store.Value(), Values(sources), pc) ==
              MarkStep(RemoveAll(World(old(store.Value()), old(Values(sources)), Removing(0)), f, |sources|), f.mark)
  {
    ghost var s := store.Value();
    ghost var w := World(s, Values(sources), Removing(0));
    for i := 0 to |sources|
      invariant store.Value() == s
      invariant RemoveAll(w, f, i) == World(s, Values(sources), Removing(i))
    {
      if i == f.remove {
        StoppedStays(w, f, i + 1, |sources|);
        return Idle;
      }
      OneRemoval(w, f, i, s, Values(sources));
      RemoveOne(sources, i);
    }
    if f.mark {
      return Idle;
    }
    store.migration := Done;
    return Finished;
  }

  /** migrateLegacyStores: it takes exactly the steps of one attempt. */
  method MigrateLegacyStores(store: SqliteCacheStore, sources: seq<LegacySource>, f: Faults) returns (pc: Pc)
    requires forall i, j :: 0 <= i < j < |sources| ==> sources[i] != sources[j]
    requires Floor.Sound(store.row)
    modifies store, sources
    ensures World(store.Value(), Values(sources), pc) ==
              Attempt(store.c, World(old(store.Value()), old(Values(sources)), Idle), f)
  {
    ghost var w := World(store.Value(), Values(sources), Idle);
    pc := CopyStores(store, sources, f);
    ghost var copied := Copy(store.c, w, f);
    CopyEnds(store.c, w, f);
    if pc.Removing? {
      pc := RemoveSources(store, sources, f);
    } else {
      StoppedStays(copied, f, 0, |sources|);
    }
  }

  lemma CopyEnds(c: Primitives, w: World, f: Faults)
    requires w.pc.Idle?
    ensures var pc := Copy(c, w, f).pc; pc.Idle? || pc.Finished? || pc == Removing(0)
    ensures |Copy(c, w, f).sources| == |w.sources|
  {
  }

  function Removals(f: Faults, n: nat): seq<Event> {
    if n == 0 then [] else Removals(f, n - 1) + [RemoveNext(n - 1 == f.remove)]
  }

  function Steps(f: Faults, n: nat): seq<Event> {
    [Begin(f.readPointers, f.raise), ReadAll(f.read), Import(f.imports)] + Removals(f, n) + [MarkDone(f.mark)]
  }

  lemma AfterOne(c: Primitives, w: World, run: seq<Event>, e: Event)
    ensures After(c, w, run + [e]) == Next(c, After(c, w, run), e)
  {
    assert (run + [e])[..|run|] == run;
  }

  lemma RemoveEvent(c: Primitives, w: World, fails: bool)
    ensures Next(c, w, RemoveNext(fails)) == RemoveStep(w, fails)
  {
  }

  lemma {:induction false} RemovalsRun(c: Primitives, w: World, f: Faults, head: seq<Event>, n: nat)
    ensures After(c, w, head + Removals(f, n)) == RemoveAll(After(c, w, head), f, n)
  {
    if n == 0 {
      assert head + Removals(f, 0) == head;
    } else {
      var front, last := head + Removals(f, n - 1), RemoveNext(n - 1 == f.remove);
      RemovalsRun(c, w, f, head, n - 1);
      assert head + Removals(f, n) == front + [last];
      AfterOne(c, w, front, last);
      RemoveEvent(c, After(c, w, front), n - 1 == f.remove);
    }
  }

  lemma HeadRun(c: Primitives, w: World, f: Faults)
    ensures After(c, w, [Begin(f.readPointers, f.raise), ReadAll(f.read), Import(f.imports)]) == Copy(c, w, f)
  {
    var begin, read, imports := Begin(f.readPointers, f.raise), ReadAll(f.read), Import(f.imports);
    assert [begin, read, imports][..2] == [begin, read] && [begin, read][..1] == [begin] && [begin][..0] == [];
    assert After(c, w, []) == w;
    assert After(c, w, [begin]) == Next(c, w, begin);
    assert After(c, w, [begin, read]) == Next(c, Next(c, w, begin), read);
  }

  /** So whatever is proved of every run holds of the method. */
  lemma AttemptIsARun(c: Primitives, w: World, f: Faults)
    ensures Attempt(c, w, f) == After(c, w, Steps(f, |w.sources|))
  {
    var head := [Begin(f.readPointers, f.raise), ReadAll(f.read), Import(f.imports)];
    var n := |w.sources|;
    HeadRun(c, w, f);
    RemovalsRun(c, w, f, head, n);
    AfterOne(c, w, head + Removals(f, n), MarkDone(f.mark));
  }

  lemma {:induction false} RemovalsProceed(w: World, f: Faults, k: nat)
    requires w.pc == Removing(0) && k <= |w.sources| <= f.remove
    ensures RemoveAll(w, f, k).pc == Removing(k) && |RemoveAll(w, f, k).sources| == |w.sources|
  {
    if k > 0 {
      RemovalsProceed(w, f, k - 1);
    }
  }

  lemma CopySucceeds(c: Primitives, w: World, f: Faults)
    requires Initial(c, w)
    requires !f.readPointers && !f.raise && !f.read && !f.imports
    ensures Copy(c, w, f).pc == Removing(0) && |Copy(c, w, f).sources| == |w.sources|
  {
    var begun := BeginStep(w, false);
    BeginIsSafe(c, w, Begin(false, false), {});
    assert Safe(c, begun, {});
    var read := begun.(pc := SnapshotsRead(begun.sources));
    assert Safe(c, read, {});
    ImportCarries(c, read, {});
  }

  /** An attempt in which nothing throws completes the move, with the floor at the target. */
  lemma UninterruptedAttemptFinishes(c: Primitives, w: World, f: Faults)
    requires Initial(c, w)
    requires !f.readPointers && !f.raise && !f.read && !f.imports && f.remove >= |w.sources| && !f.mark
    ensures Attempt(c, w, f).pc.Finished? && Attempt(c, w, f).store.migration.Done?
    ensures Attempt(c, w, f).store.row.floor == TargetFloor(w)
    ensures forall h :: h in Attempt(c, w, f).store.table <==> TargetHash(c, w, h)
  {
    CopySucceeds(c, w, f);
    RemovalsProceed(Copy(c, w, f), f, |w.sources|);
    AttemptIsARun(c, w, f);
    StepsOnlyMigrate(f, |w.sources|);
    RestartsConverge(c, w, Steps(f, |w.sources|));
  }

  lemma {:induction false} StepsOnlyMigrate(f: Faults, n: nat)
    ensures OnlyMigrating(Removals(f, n)) && OnlyMigrating(Steps(f, n))
  {
    if n > 0 {
      StepsOnlyMigrate(f, n - 1);
    }
  }
}
