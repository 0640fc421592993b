/**
 * The two stores the library ships with (src/engine/legacyStores.ts): an OPFS store, whose entries are
 * deleted one by one, and an IndexedDB store, which one transaction deletes. A crash can fall between
 * any two deletions, so the sources of `Migration` are the entries here.
 */
module LegacyLayout {
  import opened Prelude
  import opened ChunkStore
  import opened Migration
  import opened MigrationIdentity
  import Floor

  /** A pointer file of the OPFS store. */
  datatype PointerFile = Missing | Unreadable | Holds(p: Floor.Pointer)

  /** What both stores hold; an IndexedDB store without a pointer is an empty slot. */
  datatype Layout = Layout(
    chunks: Bodies, manifests: Bodies, active: PointerFile, a: PointerFile, b: PointerFile,
    indexedDb: Option<Floor.Pointer>, otherChunks: Bodies, otherManifests: Bodies)

  function SlotOf(f: PointerFile): Option<Floor.Pointer> {
    if f.Holds? then Some(f.p) else None
  }

  /** `readOpfsPointers`: one torn file of the pair is made up for by the other; anything else unreadable
      refuses. */
  function OpfsPointers(l: Layout): Option<Slots> {
    if || l.active.Unreadable?
       || (l.a.Unreadable? && !l.b.Holds?)
       || (l.b.Unreadable? && !l.a.Holds?)
    then None
    else Some([SlotOf(l.active), SlotOf(l.a), SlotOf(l.b)])
  }

  /** What is read: every slot of both stores. */
  function SlotsRead(l: Layout): Slots {
    [SlotOf(l.active), SlotOf(l.a), SlotOf(l.b), l.indexedDb]
  }

  /** The k-th entry that is deleted; IndexedDB comes last. */
  function Entry(l: Layout, k: nat): Source {
    match k
    case 0 => Source([], l.chunks, [], false)
    case 1 => Source([], [], l.manifests, false)
    case 2 => Source([SlotOf(l.active)], [], [], false)
    case 3 => Source([SlotOf(l.a)], [], [], false)
    case 4 => Source([SlotOf(l.b)], [], [], false)
    case _ => Source([l.indexedDb], l.otherChunks, l.otherManifests, false)
  }

  /** The entries from the k-th on. */
  function EntriesFrom(l: Layout, k: nat): (r: seq<Source>)
    requires k <= ENTRIES
    ensures |r| == ENTRIES - k && forall j :: 0 <= j < |r| ==> r[j] == Entry(l, k + j)
    decreases ENTRIES - k
  {
    if k == ENTRIES then [] else [Entry(l, k)] + EntriesFrom(l, k + 1)
  }

  function Entries(l: Layout): seq<Source> {
    EntriesFrom(l, 0)
  }

  const ENTRIES: nat := 6

  /** The stores after the first `k` deletions. */
  function Deleted(l: Layout, k: nat): Layout {
    Layout(if k > 0 then [] else l.chunks, if k > 1 then [] else l.manifests,
           if k > 2 then Missing else l.active, if k > 3 then Missing else l.a, if k > 4 then Missing else l.b,
           if k > 5 then None else l.indexedDb, if k > 5 then [] else l.otherChunks,
           if k > 5 then [] else l.otherManifests)
  }

  // ---------------------------------------------------------------- reading the rest

  lemma {:induction false} SlotsInFront(x: Source, rest: seq<Source>)
    ensures AllSlots([x] + rest) == SlotsOf(x) + AllSlots(rest)
  {
    var all := [x] + rest;
    if rest == [] {
      assert all[..0] == [] && all[0] == x;
    } else {
      var n := |rest| - 1;
      SlotsInFront(x, rest[..n]);
      assert all[..|all| - 1] == [x] + rest[..n] && all[|all| - 1] == rest[n];
      assert AllSlots(all) == AllSlots([x] + rest[..n]) + SlotsOf(rest[n]);
    }
  }

  lemma {:induction false} ChunksInFront(x: Source, rest: seq<Source>)
    ensures AllChunks([x] + rest) == ChunksOf(x) + AllChunks(rest)
  {
    var all := [x] + rest;
    if rest == [] {
      assert all[..0] == [] && all[0] == x;
    } else {
      var n := |rest| - 1;
      ChunksInFront(x, rest[..n]);
      assert all[..|all| - 1] == [x] + rest[..n] && all[|all| - 1] == rest[n];
      assert AllChunks(all) == AllChunks([x] + rest[..n]) + ChunksOf(rest[n]);
    }
  }

  lemma {:induction false} ManifestsInFront(x: Source, rest: seq<Source>)
    ensures AllManifests([x] + rest) == ManifestsOf(x) + AllManifests(rest)
  {
    var all := [x] + rest;
    if rest == [] {
      assert all[..0] == [] && all[0] == x;
    } else {
      var n := |rest| - 1;
      ManifestsInFront(x, rest[..n]);
      assert all[..|all| - 1] == [x] + rest[..n] && all[|all| - 1] == rest[n];
      assert AllManifests(all) == AllManifests([x] + rest[..n]) + ManifestsOf(rest[n]);
    }
  }

  /** The slots behind the first `k` entries. */
  function SlotsFrom(l: Layout, k: nat): Slots {
    if k <= 2 then SlotsRead(l)
    else if k == 3 then [SlotOf(l.a), SlotOf(l.b), l.indexedDb]
    else if k == 4 then [SlotOf(l.b), l.indexedDb]
    else if k == 5 then [l.indexedDb]
    else []
  }

  lemma OneSlotMore(l: Layout, k: nat)
    requires k < ENTRIES
    ensures SlotsFrom(l, k) == Entry(l, k).slots + SlotsFrom(l, k + 1)
  {
  }

  lemma {:induction false} SlotsOfEntries(l: Layout, k: nat)
    requires k <= ENTRIES
    ensures AllSlots(EntriesFrom(l, k)) == SlotsFrom(l, k)
    decreases ENTRIES - k
  {
    if k < ENTRIES {
      SlotsOfEntries(l, k + 1);
      SlotsInFront(Entry(l, k), EntriesFrom(l, k + 1));
      OneSlotMore(l, k);
    }
  }

  function ChunksFrom(l: Layout, k: nat): Bodies {
    if k == 0 then l.chunks + l.otherChunks else if k < ENTRIES then l.otherChunks else []
  }

  function ManifestsFrom(l: Layout, k: nat): Bodies {
    if k <= 1 then l.manifests + l.otherManifests else if k < ENTRIES then l.otherManifests else []
  }

  lemma OneEntryOfChunks(l: Layout, k: nat, rest: seq<Source>)
    requires k < ENTRIES && AllChunks(rest) == ChunksFrom(l, k + 1)
    ensures AllChunks([Entry(l, k)] + rest) == ChunksFrom(l, k)
  {
    ChunksInFront(Entry(l, k), rest);
    assert ChunksOf(Entry(l, k)) == if k == 0 then l.chunks else if k < 5 then [] else l.otherChunks;
  }

  lemma OneEntryOfManifests(l: Layout, k: nat, rest: seq<Source>)
    requires k < ENTRIES && AllManifests(rest) == ManifestsFrom(l, k + 1)
    ensures AllManifests([Entry(l, k)] + rest) == ManifestsFrom(l, k)
  {
    ManifestsInFront(Entry(l, k), rest);
    assert ManifestsOf(Entry(l, k)) == if k == 1 then l.manifests else if k < 5 then [] else l.otherManifests;
  }

  lemma {:induction false} ChunksOfEntries(l: Layout, k: nat)
    requires k <= ENTRIES
    ensures AllChunks(EntriesFrom(l, k)) == ChunksFrom(l, k)
    decreases ENTRIES - k
  {
    if k < ENTRIES {
      ChunksOfEntries(l, k + 1);
      OneEntryOfChunks(l, k, EntriesFrom(l, k + 1));
    }
  }

  lemma {:induction false} ManifestsOfEntries(l: Layout, k: nat)
    requires k <= ENTRIES
    ensures AllManifests(EntriesFrom(l, k)) == ManifestsFrom(l, k)
    decreases ENTRIES - k
  {
    if k < ENTRIES {
      ManifestsOfEntries(l, k + 1);
      OneEntryOfManifests(l, k, EntriesFrom(l, k + 1));
    }
  }

  /** All entries together read as the two stores do. */
  lemma EntriesReadAsTheStores(l: Layout)
    ensures AllSlots(Entries(l)) == SlotsRead(l)
    ensures AllChunks(Entries(l)) == l.chunks + l.otherChunks
    ensures AllManifests(Entries(l)) == l.manifests + l.otherManifests
  {
    SlotsOfEntries(l, 0);
    ChunksOfEntries(l, 0);
    ManifestsOfEntries(l, 0);
  }

  lemma LaterEntries(l: Layout, k: nat)
    requires k <= ENTRIES
    ensures AllSlots(Entries(l)[k..]) == SlotsFrom(l, k)
  {
    assert Entries(l)[k..] == EntriesFrom(l, k);
    SlotsOfEntries(l, k);
  }

  /** Empty slots in front change neither the selection nor the maximum. */
  lemma {:induction false} EmptySlotsDoNotCount(slots: Slots)
    ensures Floor.SelectHighest([None] + slots) == Floor.SelectHighest(slots)
    ensures Floor.MaxSequence([None] + slots) == Floor.MaxSequence(slots)
  {
    if slots == [] {
      assert ([None] + slots)[..0] == [];
    } else {
      var n := |slots| - 1;
      EmptySlotsDoNotCount(slots[..n]);
      assert ([None] + slots)[..n + 1] == [None] + slots[..n];
    }
  }

  function Blank(n: nat): Slots {
    if n == 0 then [] else [None] + Blank(n - 1)
  }

  lemma BlankJoins(slots: Slots, n: nat)
    requires n > 0
    ensures Blank(n) + slots == [None] + (Blank(n - 1) + slots)
  {
  }

  lemma {:induction false} BlankInFront(slots: Slots, n: nat)
    ensures Floor.SelectHighest(Blank(n) + slots) == Floor.SelectHighest(slots)
    ensures Floor.MaxSequence(Blank(n) + slots) == Floor.MaxSequence(slots)
  {
    if n == 0 {
      assert [] + slots == slots;
    } else {
      BlankInFront(slots, n - 1);
      EmptySlotsDoNotCount(Blank(n - 1) + slots);
      BlankJoins(slots, n);
    }
  }

  function FilesGone(k: nat): nat {
    if k < 2 then 0 else k - 2
  }

  lemma DeletedSlots(l: Layout, k: nat)
    requires k <= ENTRIES
    ensures SlotsRead(Deleted(l, k)) == Blank(FilesGone(k)) + SlotsFrom(l, k)
  {
    assert Blank(1) == [None] && Blank(2) == [None, None];
    assert Blank(3) == [None, None, None] && Blank(4) == [None, None, None, None];
  }

  /** Deleting the first `k` entries reads, for all that selection sees, as the sources behind them. */
  lemma DeletionReadsAsTheRest(l: Layout, k: nat)
    requires k <= ENTRIES
    ensures Floor.SelectHighest(SlotsRead(Deleted(l, k))) == Floor.SelectHighest(AllSlots(Entries(l)[k..]))
    ensures Floor.MaxSequence(SlotsRead(Deleted(l, k))) == Floor.MaxSequence(AllSlots(Entries(l)[k..]))
  {
    LaterEntries(l, k);
    DeletedSlots(l, k);
    BlankInFront(SlotsFrom(l, k), FilesGone(k));
  }

  // ------------------------------------------------------------------------ identity

  /** The pair of OPFS files disagrees at one sequence, and the IndexedDB pointer is at the floor. */
  predicate TornBelow(l: Layout, floor: int) {
    && l.a.Holds? && l.b.Holds?
    && Floor.SequenceOf(l.a.p) == Floor.SequenceOf(l.b.p) && !Floor.Same(l.a.p, l.b.p)
    && l.indexedDb.Some? && Floor.SequenceOf(l.indexedDb.value) == floor
  }

  function Shipped(store: Store, l: Layout): World {
    World(store, Entries(l), Idle)
  }

  /** An identity after a merge that reached the floor comes from a selection. */
  lemma IdentityIsSelected(row: Floor.Row, slots: Slots)
    requires Floor.Sound(row) && Merged(row, slots).identity.Some?
    ensures Selects(slots, Merged(row, slots).floor)
  {
    MergeEffect(row, slots);
  }

  lemma TopsAreAlike(slots: Slots, floor: int, i: nat, j: nat)
    requires Selects(slots, floor) && Floor.MaxSequence(slots) <= floor
    requires i < |slots| && slots[i].Some? && Floor.SequenceOf(slots[i].value) == floor
    requires j < |slots| && slots[j].Some? && Floor.SequenceOf(slots[j].value) == floor
    ensures Floor.Same(slots[i].value, slots[j].value)
  {
    Floor.MaxSequenceBounds(slots);
    Floor.SelectedStandsForItsSequence(slots, i);
    Floor.SelectedIsTop(slots);
  }

  lemma SelectTwo(x: Option<Floor.Pointer>, y: Option<Floor.Pointer>)
    ensures Floor.SelectHighest([x, y]) == Floor.Fold(Floor.Fold(Floor.Highest(None), x), y)
  {
    assert [x, y][..1] == [x] && [x][..0] == [];
    assert Floor.SelectHighest([x]) == Floor.Fold(Floor.Highest(None), x);
  }

  /** The last two slots never disagree at the floor when all of them select there. */
  lemma LastTwoSelect(l: Layout, floor: int)
    requires Selects(SlotsRead(l), floor) && Floor.MaxSequence(SlotsRead(l)) <= floor
    ensures Selects([SlotOf(l.b), l.indexedDb], floor)
  {
    var all, two := SlotsRead(l), [SlotOf(l.b), l.indexedDb];
    SelectTwo(two[0], two[1]);
    Floor.MaxSequenceBounds(two);
    if Floor.MaxSequence(two) == floor && Floor.SelectHighest(two).Disagree? {
      PairMaximum(two[0], two[1]);
      TopsAreAlike(all, floor, 2, 3);
    }
  }

  lemma PairMaximum(x: Option<Floor.Pointer>, y: Option<Floor.Pointer>)
    requires x.Some? && y.Some?
    ensures Floor.MaxSequence([x, y]) == Max(Floor.SequenceOf(x.value), Floor.SequenceOf(y.value))
  {
    assert [x, y][..1] == [x] && [x][..0] == [];
    assert Floor.MaxSequence([x]) == Floor.SequenceOf(x.value);
  }

  lemma LastThreeSelectExactly(l: Layout, floor: int)
    requires Selects(SlotsRead(l), floor) && Floor.MaxSequence(SlotsRead(l)) <= floor
    ensures Selects([SlotOf(l.a), SlotOf(l.b), l.indexedDb], floor) <==> !TornBelow(l, floor)
  {
    var all, three := SlotsRead(l), [SlotOf(l.a), SlotOf(l.b), l.indexedDb];
    Floor.SelectThree(three[0], three[1], three[2]);
    Floor.MaxSequenceBounds(three);
    Floor.MaxSequenceBounds(all);
    assert all[1] == three[0] && all[2] == three[1] && all[3] == three[2];
    if TornBelow(l, floor) {
      assert three[2].Some? && Floor.SequenceOf(three[2].value) == floor;
      assert Floor.MaxSequence(three) == floor by { ThreeWithin(l, floor); }
    } else if Floor.MaxSequence(three) == floor && Floor.SelectHighest(three).Disagree? {
      DisagreementIsTorn(l, floor);
    }
  }

  lemma ThreeWithin(l: Layout, floor: int)
    requires Floor.MaxSequence(SlotsRead(l)) <= floor && TornBelow(l, floor)
    ensures Floor.MaxSequence([SlotOf(l.a), SlotOf(l.b), l.indexedDb]) == floor
  {
    var all := SlotsRead(l);
    Floor.MaxSequenceBounds(all);
    assert all[1] == SlotOf(l.a) && all[2] == SlotOf(l.b) && all[3] == l.indexedDb;
    Floor.MaxOfThree(SlotOf(l.a), SlotOf(l.b), l.indexedDb);
  }

  /** Among the last three only the pair can disagree, and only below the floor. */
  lemma DisagreementIsTorn(l: Layout, floor: int)
    requires Selects(SlotsRead(l), floor) && Floor.MaxSequence(SlotsRead(l)) <= floor
    requires var three := [SlotOf(l.a), SlotOf(l.b), l.indexedDb];
             Floor.MaxSequence(three) == floor && Floor.SelectHighest(three).Disagree?
    ensures TornBelow(l, floor)
  {
    var all, x, y, z := SlotsRead(l), SlotOf(l.a), SlotOf(l.b), l.indexedDb;
    Floor.SelectThree(x, y, z);
    Floor.MaxSequenceBounds(all);
    assert all[1] == x && all[2] == y && all[3] == z;
    Floor.MaxSequenceBounds([x, y, z]);
    assert [x, y, z][0] == x && [x, y, z][1] == y && [x, y, z][2] == z;
    forall i: nat, j: nat | 1 <= i < j < 4 && all[i].Some? && all[j].Some?
                            && Floor.SequenceOf(all[i].value) == Floor.SequenceOf(all[j].value) == floor
      ensures Floor.Same(all[i].value, all[j].value)
    {
      TopsAreAlike(all, floor, i, j);
    }
  }

  lemma EverySuffixSelects(l: Layout, floor: int, k: nat)
    requires Selects(SlotsRead(l), floor) && Floor.MaxSequence(SlotsRead(l)) <= floor && !TornBelow(l, floor)
    requires k <= ENTRIES
    ensures Selects(SlotsFrom(l, k), floor)
  {
    LastThreeSelectExactly(l, floor);
    LastTwoSelect(l, floor);
    if k == 5 {
      assert [l.indexedDb][..0] == [];
    }
  }

  lemma SuffixesSelectExactly(l: Layout, floor: int)
    requires Selects(SlotsRead(l), floor) && Floor.MaxSequence(SlotsRead(l)) <= floor
    ensures SuffixesSelect(Entries(l), floor) <==> !TornBelow(l, floor)
  {
    if !TornBelow(l, floor) {
      forall k | 0 <= k <= ENTRIES ensures Selects(AllSlots(Entries(l)[k..]), floor) {
        LaterEntries(l, k);
        EverySuffixSelects(l, floor, k);
      }
    } else {
      LastThreeSelectExactly(l, floor);
      LaterEntries(l, 3);
      assert !Selects(AllSlots(Entries(l)[3..]), floor);
    }
  }

  /**
   * The shipped stores, wherever a crash falls between two deletions: the identity the first merge
   * recorded, and with it what is served, survives every restart if and only if it is not the case that
   * `active.a` and `active.b` disagree at one sequence while the IndexedDB pointer is at the floor.
   */
  lemma ShippedIdentitySurvivesExactly(c: Primitives, store: Store, l: Layout)
    requires Initial(c, Shipped(store, l)) && RowAfter(c, Shipped(store, l), []).identity.Some?
    ensures var w := Shipped(store, l);
            (forall run :: OnlyMigrating(run) ==> RowAfter(c, w, run).identity == RowAfter(c, w, []).identity)
            <==> !TornBelow(l, TargetFloor(w))
    ensures var w := Shipped(store, l);
            !TornBelow(l, TargetFloor(w)) ==>
              forall run :: OnlyMigrating(run) ==> Floor.SameOutcome(RowAfter(c, w, run), RowAfter(c, w, []))
  {
    var w := Shipped(store, l);
    BegunRow(c, w);
    EntriesReadAsTheStores(l);
    MergeEffect(store.row, SlotsRead(l));
    IdentityIsSelected(store.row, SlotsRead(l));
    SuffixesSelectExactly(l, TargetFloor(w));
    IdentitySurvivesExactly(c, w);
  }

  /** `active` and the IndexedDB store hold `top`, and the pair two releases that disagree below it. */
  function TornStores(a: Floor.Pointer, b: Floor.Pointer, top: Floor.Pointer): Layout {
    Layout([], [], Holds(top), Holds(a), Holds(b), Some(top), [], [])
  }

  const EMPTY_STORE: Store := Store([], 0, map[], map[], Floor.EMPTY_ROW, NotStarted)

  lemma TopOfFour(a: Floor.Pointer, b: Floor.Pointer, top: Floor.Pointer)
    requires Floor.Sequenced(a) && Floor.Sequenced(b) && Floor.Sequenced(top)
    requires a.sequence == b.sequence && top.sequence.v > a.sequence.v
    ensures var slots := SlotsRead(TornStores(a, b, top));
            Floor.SelectHighest(slots) == Floor.Highest(Some(top)) && Floor.MaxSequence(slots) == top.sequence.v
  {
    var slots := SlotsRead(TornStores(a, b, top));
    Floor.FirstTopIsSelected(slots, 4);
    assert slots[..4] == slots;
    Floor.SelectedIsTop(slots);
  }

  lemma NothingIsGone(c: Primitives, l: Layout)
    ensures Initial(c, Shipped(EMPTY_STORE, l))
  {
  }

  /** Merging slots that select `top` into an empty row serves it. */
  lemma FirstMerge(slots: Slots, top: Floor.Pointer)
    requires Floor.SelectHighest(slots) == Floor.Highest(Some(top)) && Floor.Sequenced(top) && Floor.Storable(top)
    ensures Floor.Served(Merged(Floor.EMPTY_ROW, slots)) == Some(top)
  {
    MergeEffect(Floor.EMPTY_ROW, slots);
  }

  lemma FirstBegin(c: Primitives, a: Floor.Pointer, b: Floor.Pointer, top: Floor.Pointer)
    requires Floor.Sequenced(a) && Floor.Sequenced(b) && Floor.Sequenced(top) && Floor.Storable(top)
    requires a.sequence == b.sequence && top.sequence.v > a.sequence.v
    ensures var w := Shipped(EMPTY_STORE, TornStores(a, b, top));
            Initial(c, w) && TargetFloor(w) == top.sequence.v && Floor.Served(Begun(w).store.row) == Some(top)
  {
    var w := Shipped(EMPTY_STORE, TornStores(a, b, top));
    NothingIsGone(c, TornStores(a, b, top));
    TopOfFour(a, b, top);
    EntriesReadAsTheStores(TornStores(a, b, top));
    FirstMerge(AllSlots(w.sources), top);
    BegunRow(c, w);
  }

  lemma TornBehindActive(a: Floor.Pointer, b: Floor.Pointer, top: Floor.Pointer)
    requires Floor.Sequenced(a) && Floor.Sequenced(b) && Floor.Sequenced(top)
    requires a.sequence == b.sequence && !Floor.Same(a, b) && top.sequence.v > a.sequence.v
    ensures !Selects(AllSlots(Entries(TornStores(a, b, top))[3..]), top.sequence.v)
  {
    TopOfFour(a, b, top);
    LastThreeSelectExactly(TornStores(a, b, top), top.sequence.v);
    LaterEntries(TornStores(a, b, top), 3);
  }

  lemma ThreeRemovals()
    ensures CrashAfter(3) == [ReadAll(false), Import(false), RemoveNext(false), RemoveNext(false), RemoveNext(false),
                              Crash, Begin(false, false)]
  {
    var f := Undisturbed(3);
    assert Removals(f, 0) == [];
    assert Removals(f, 1) == [RemoveNext(false)];
    assert Removals(f, 2) == [RemoveNext(false), RemoveNext(false)];
    assert Removals(f, 3) == [RemoveNext(false), RemoveNext(false), RemoveNext(false)];
  }

  /** It does happen to the shipped stores: begin, copy, delete `chunk`, `manifest` and `active`, crash, begin
      again. The release served after the first begin is served no more, though it is at the floor. */
  lemma RestartMayForgetIdentity(c: Primitives, a: Floor.Pointer, b: Floor.Pointer, top: Floor.Pointer)
    requires Floor.Sequenced(a) && Floor.Sequenced(b) && Floor.Sequenced(top) && Floor.Storable(top)
    requires a.sequence == b.sequence && !Floor.Same(a, b) && top.sequence.v > a.sequence.v
    ensures OpfsPointers(TornStores(a, b, top)).Some? && OpfsPointers(Deleted(TornStores(a, b, top), 3)).Some?
    ensures CrashAfter(3) == [ReadAll(false), Import(false), RemoveNext(false), RemoveNext(false), RemoveNext(false),
                              Crash, Begin(false, false)]
    ensures var w := Shipped(EMPTY_STORE, TornStores(a, b, top));
            && Initial(c, w)
            && Floor.Served(RowAfter(c, w, [])) == Some(top)
            && RowAfter(c, w, CrashAfter(3)).floor == top.sequence.v
            && Floor.Served(RowAfter(c, w, CrashAfter(3))) == None
  {
    ThreeRemovals();
    FirstBegin(c, a, b, top);
    TornBehindActive(a, b, top);
    CrashForgets(c, Shipped(EMPTY_STORE, TornStores(a, b, top)), 3);
  }

  // --------------------------------------------------------------------- a torn file

  /** After a crash between any two deletions the pointers can be read again if and only if `active.b` is
      not the torn one of the pair. */
  lemma RestartsCanReadExactly(l: Layout)
    requires OpfsPointers(l).Some?
    ensures (forall k: nat :: k <= ENTRIES ==> OpfsPointers(Deleted(l, k)).Some?) <==> !l.b.Unreadable?
  {
    if l.b.Unreadable? {
      assert OpfsPointers(Deleted(l, 4)).None?;
    }
  }

  /** While they cannot, no attempt ever gets anywhere: nothing is merged, copied, removed or marked. */
  lemma {:induction false} UnreadableStopsTheMove(c: Primitives, w: World, run: seq<Event>)
    requires w.pc.Idle? && !w.store.migration.Done? && OnlyMigrating(run)
    requires forall i :: 0 <= i < |run| && run[i].Begin? ==> run[i].readFails
    ensures var end := After(c, w, run);
            end.pc.Idle? && end.sources == w.sources && end.store.row == w.store.row
            && end.store.table == w.store.table && end.store.migration == w.store.migration
  {
    if run != [] {
      UnreadableStopsTheMove(c, w, run[..|run| - 1]);
    }
  }
}
