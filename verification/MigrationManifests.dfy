/**
 * The manifests of the move from the 0.2.x stores (src/engine/migration.ts): which are copied, that none is
 * lost by removing a source, and what a finished move holds.
 */
module MigrationManifests {
  import opened Prelude
  import opened ChunkStore
  import opened Migration
  import StoreAgreement
  import Floor

  /** A manifest under its own hash. */
  predicate Addressed(c: Primitives, m: (Text, Bytes)) {
    c.sha(m.1) == m.0
  }

  /** Exactly the manifests under their own hash are copied. */
  lemma {:induction false} VerifiedManifestsMeaning(c: Primitives, all: Bodies)
    ensures forall m :: m in VerifiedManifests(c, all) <==> m in all && Addressed(c, m)
  {
    if all != [] {
      VerifiedManifestsMeaning(c, all[..|all| - 1]);
      assert all == all[..|all| - 1] + [all[|all| - 1]];
    }
  }

  predicate Listed(rows: Bodies, h: Text) {
    exists i :: 0 <= i < |rows| && rows[i].0 == h
  }

  /** What was there stays; what is new comes from the rows. */
  lemma {:induction false} InsertedManifests(table: map<Text, Bytes>, rows: Bodies)
    ensures forall h :: h in InsertManifests(table, rows) <==> h in table || Listed(rows, h)
    ensures forall h <- table :: InsertManifests(table, rows)[h] == table[h]
    ensures forall h <- InsertManifests(table, rows) :: h in table || (h, InsertManifests(table, rows)[h]) in rows
  {
    if rows != [] {
      var n := |rows| - 1;
      InsertedManifests(table, rows[..n]);
      forall h ensures Listed(rows, h) <==> Listed(rows[..n], h) || h == rows[n].0 {
        if Listed(rows, h) {
          var i :| 0 <= i < |rows| && rows[i].0 == h;
          assert i < n ==> rows[..n][i] == rows[i];
        }
        if Listed(rows[..n], h) {
          var i :| 0 <= i < n && rows[..n][i].0 == h;
          assert rows[i].0 == h;
        }
      }
    }
  }

  /** Every manifest is kept under its own hash. */
  predicate ManifestsOk(c: Primitives, s: Store) {
    forall h <- s.manifests :: c.sha(s.manifests[h]) == h
  }

  /** Every manifest the source held under its own hash is in the store, but for those that were `dropped`. */
  predicate CarriedManifests(c: Primitives, s: Store, x: Source, dropped: set<Text>) {
    forall k :: 0 <= k < |x.manifests| && Addressed(c, x.manifests[k]) ==>
      x.manifests[k].0 in s.manifests || x.manifests[k].0 in dropped
  }

  predicate Safe(c: Primitives, w: World, dropped: set<Text>) {
    && ManifestsOk(c, w.store)
    && (forall i :: 0 <= i < |w.sources| && (w.sources[i].removed || w.pc.Removing?) ==>
          CarriedManifests(c, w.store, w.sources[i], dropped))
  }

  /** The manifests a step takes out. */
  function Lost(a: Store, b: Store): set<Text> {
    a.manifests.Keys - b.manifests.Keys
  }

  // ---------------------------------------------------------------------- step by step

  lemma {:induction false} AllManifestsCover(sources: seq<Source>, i: nat, k: nat)
    requires i < |sources| && !sources[i].removed && k < |sources[i].manifests|
    ensures sources[i].manifests[k] in AllManifests(sources)
  {
    var n := |sources| - 1;
    if i < n {
      AllManifestsCover(sources[..n], i, k);
    }
  }

  /** The import commits unless its transaction is refused, and adds the manifests under their own hashes. */
  lemma ImportedManifests(c: Primitives, store: Store, snapshots: seq<Source>)
    requires Floor.Sound(store.row)
    ensures Imported(c, store, snapshots, false).manifests ==
            InsertManifests(store.manifests, VerifiedManifests(c, AllManifests(snapshots)))
    ensures Imported(c, store, snapshots, true) == store
  {
    Floor.TriggerNeverFires(store.row, Floor.MergeSlots(AllSlots(snapshots)));
  }

  lemma ImportKeepsManifestsOk(c: Primitives, store: Store, snapshots: seq<Source>, fails: bool)
    requires Floor.Sound(store.row) && ManifestsOk(c, store)
    ensures ManifestsOk(c, Imported(c, store, snapshots, fails))
    ensures store.manifests.Keys <= Imported(c, store, snapshots, fails).manifests.Keys
  {
    var rows := VerifiedManifests(c, AllManifests(snapshots));
    ImportedManifests(c, store, snapshots);
    InsertedManifests(store.manifests, rows);
    VerifiedManifestsMeaning(c, AllManifests(snapshots));
    if !fails {
      var after := Imported(c, store, snapshots, false).manifests;
      forall h | h in after ensures c.sha(after[h]) == h {
        assert h !in store.manifests ==> Addressed(c, (h, after[h]));
      }
    }
  }

  lemma ImportCarriesManifests(c: Primitives, store: Store, sources: seq<Source>, i: nat, dropped: set<Text>)
    requires Floor.Sound(store.row) && i < |sources|
    requires sources[i].removed ==> CarriedManifests(c, store, sources[i], dropped)
    ensures CarriedManifests(c, Imported(c, store, sources, false), sources[i], dropped)
  {
    var x, rows := sources[i], VerifiedManifests(c, AllManifests(sources));
    ImportedManifests(c, store, sources);
    InsertedManifests(store.manifests, rows);
    VerifiedManifestsMeaning(c, AllManifests(sources));
    forall k | 0 <= k < |x.manifests| && Addressed(c, x.manifests[k]) && !x.removed
      ensures x.manifests[k].0 in Imported(c, store, sources, false).manifests
    {
      AllManifestsCover(sources, i, k);
      var j :| 0 <= j < |rows| && rows[j] == x.manifests[k];
      assert Listed(rows, x.manifests[k].0);
    }
  }

  lemma ImportIsSafe(c: Primitives, w: World, fails: bool, dropped: set<Text>)
    requires Safe(c, w, dropped) && Floor.Sound(w.store.row) && w.pc.SnapshotsRead? && w.pc.snapshots == w.sources
    ensures Safe(c, ImportStep(c, w, fails), dropped)
  {
    ImportKeepsManifestsOk(c, w.store, w.sources, fails);
    forall i | 0 <= i < |w.sources| && (w.sources[i].removed || !fails)
      ensures CarriedManifests(c, Imported(c, w.store, w.sources, fails), w.sources[i], dropped)
    {
      if !fails {
        ImportCarriesManifests(c, w.store, w.sources, i, dropped);
      }
    }
  }

  lemma SessionOpKeepsManifestsOk(c: Primitives, s: Store, e: StoreAgreement.Event)
    requires ManifestsOk(c, s) && SessionOp(e.op)
    ensures ManifestsOk(c, StoreAgreement.Apply(c, s, e))
  {
    match e.op
    case DoPutManifest(body) =>
    case DoPrune => StoreAgreement.PruneManifests(c, s, e.fails);
    case DoPut(chunk) => StoreOnly(c, s, e);
    case DoRead(hash, size) => StoreOnly(c, s, e);
    case _ =>
  }

  /** Operations on chunks leave the manifests alone. */
  lemma StoreOnly(c: Primitives, s: Store, e: StoreAgreement.Event)
    requires e.op.DoPut? || e.op.DoRead?
    ensures StoreAgreement.Apply(c, s, e).manifests == s.manifests
  {
  }

  /** Only a prune and a read that evicts take manifests out. */
  lemma OnlyPrunesAndReadsTakeManifests(c: Primitives, w: World, e: Event)
    requires Floor.Sound(w.store.row)
    requires !(e.Meanwhile? && (e.e.op.DoPrune? || e.e.op.DoGetManifest?))
    ensures Lost(w.store, Next(c, w, e).store) == {}
  {
    match e
    case Meanwhile(op) => if op.op.DoPut? || op.op.DoRead? { StoreOnly(c, w.store, op); }
    case Import(fails) =>
      if w.pc.SnapshotsRead? {
        ImportedManifests(c, w.store, w.pc.snapshots);
        InsertedManifests(w.store.manifests, VerifiedManifests(c, AllManifests(w.pc.snapshots)));
      }
    case _ =>
  }

  lemma MeanwhileIsSafe(c: Primitives, w: World, op: StoreAgreement.Event, dropped: set<Text>)
    requires Safe(c, w, dropped)
    ensures Safe(c, Next(c, w, Meanwhile(op)), dropped + Lost(w.store, Next(c, w, Meanwhile(op)).store))
  {
    if (w.pc.Idle? || w.pc.Finished?) && SessionOp(op.op) {
      SessionOpKeepsManifestsOk(c, w.store, op);
      var after := StoreAgreement.Apply(c, w.store, op);
      forall i | 0 <= i < |w.sources| && w.sources[i].removed
        ensures CarriedManifests(c, after, w.sources[i], dropped + Lost(w.store, after))
      {
        assert CarriedManifests(c, w.store, w.sources[i], dropped);
      }
    } else {
      assert dropped + Lost(w.store, w.store) == dropped;
    }
  }

  lemma OtherStepIsSafe(c: Primitives, w: World, e: Event, dropped: set<Text>)
    requires Safe(c, w, dropped) && !e.Import? && !e.Meanwhile?
    ensures Safe(c, Next(c, w, e), dropped)
  {
    var v := Next(c, w, e);
    assert v.store.manifests == w.store.manifests;
    forall i | 0 <= i < |v.sources| && (v.sources[i].removed || v.pc.Removing?)
      ensures CarriedManifests(c, v.store, v.sources[i], dropped)
    {
      assert CarriedManifests(c, w.store, w.sources[i], dropped);
    }
  }

  lemma NextIsSafe(c: Primitives, w: World, e: Event, dropped: set<Text>)
    requires Safe(c, w, dropped) && Floor.Sound(w.store.row)
    requires w.pc.SnapshotsRead? ==> w.pc.snapshots == w.sources
    ensures Safe(c, Next(c, w, e), dropped + Lost(w.store, Next(c, w, e).store))
  {
    if e.Meanwhile? {
      MeanwhileIsSafe(c, w, e.e, dropped);
    } else {
      OnlyPrunesAndReadsTakeManifests(c, w, e);
      assert dropped + Lost(w.store, Next(c, w, e).store) == dropped;
      if !e.Import? {
        OtherStepIsSafe(c, w, e, dropped);
      } else if w.pc.SnapshotsRead? {
        ImportIsSafe(c, w, e.fails, dropped);
      }
    }
  }

  /** Every hash whose manifest some step of the run has taken out. */
  function Dropped(c: Primitives, w: World, run: seq<Event>): set<Text> {
    if run == [] then {}
    else
      var front := run[..|run| - 1];
      Dropped(c, w, front) + Lost(After(c, w, front).store, After(c, w, run).store)
  }

  lemma {:induction false} ReachableIsSafe(c: Primitives, w: World, run: seq<Event>)
    requires Initial(c, w) && ManifestsOk(c, w.store)
    ensures Safe(c, After(c, w, run), Dropped(c, w, run))
  {
    if run != [] {
      var front := run[..|run| - 1];
      ReachableIsSafe(c, w, front);
      ReadsAreCurrent(c, w, front);
      NextIsSafe(c, After(c, w, front), run[|run| - 1], Dropped(c, w, front));
    }
  }

  // ------------------------------------------------------------------------- guarantees

  /** At every reachable point: a source that is gone left every manifest it held under its own hash in the
      store, with bytes that have that hash, unless a prune or an evicting read has since taken it out. */
  lemma NoManifestIsLost(c: Primitives, w: World, run: seq<Event>, i: nat)
    requires Initial(c, w) && ManifestsOk(c, w.store) && i < |w.sources|
    ensures |After(c, w, run).sources| == |w.sources|
    ensures After(c, w, run).sources[i].removed ==>
              forall k :: 0 <= k < |w.sources[i].manifests| && Addressed(c, w.sources[i].manifests[k]) ==>
                var h := w.sources[i].manifests[k].0;
                var kept := After(c, w, run).store.manifests;
                h in Dropped(c, w, run) || (h in kept && c.sha(kept[h]) == h)
  {
    ReachableIsSafe(c, w, run);
    SourcesKeepTheirContents(c, w, run);
    var end := After(c, w, run);
    if end.sources[i].removed {
      assert CarriedManifests(c, end.store, end.sources[i], Dropped(c, w, run));
    }
  }

  lemma ImportStepAdds(c: Primitives, w: World, fails: bool, h: Text)
    requires Floor.Sound(w.store.row) && (w.pc.SnapshotsRead? ==> w.pc.snapshots == w.sources)
    requires h in ImportStep(c, w, fails).store.manifests && h !in w.store.manifests
    ensures var m := (h, ImportStep(c, w, fails).store.manifests[h]);
            m in AllManifests(w.sources) && Addressed(c, m)
  {
    ImportedManifests(c, w.store, w.sources);
    InsertedManifests(w.store.manifests, VerifiedManifests(c, AllManifests(w.sources)));
    VerifiedManifestsMeaning(c, AllManifests(w.sources));
  }

  lemma OneMore(c: Primitives, w: World, run: seq<Event>, e: Event)
    ensures After(c, w, run + [e]) == Next(c, After(c, w, run), e)
  {
    assert (run + [e])[..|run|] == run;
  }

  /** What was read is what the sources still are. */
  lemma ReadsAreCurrent(c: Primitives, w: World, run: seq<Event>)
    requires Initial(c, w)
    ensures Floor.Sound(After(c, w, run).store.row)
    ensures After(c, w, run).pc.SnapshotsRead? ==> After(c, w, run).pc.snapshots == After(c, w, run).sources
  {
    Migration.ReachableIsSafe(c, w, run);
  }

  /** Whatever an import adds comes from a source and is under its own hash. */
  lemma ImportAddsOnlyAddressed(c: Primitives, w: World, run: seq<Event>, fails: bool, h: Text)
    requires Initial(c, w)
    requires h in After(c, w, run + [Import(fails)]).store.manifests && h !in After(c, w, run).store.manifests
    ensures var m := (h, After(c, w, run + [Import(fails)]).store.manifests[h]);
            m in AllManifests(After(c, w, run).sources) && Addressed(c, m)
  {
    OneMore(c, w, run, Import(fails));
    ReadsAreCurrent(c, w, run);
    ImportStepAdds(c, After(c, w, run), fails, h);
  }

  // ------------------------------------------------------------------------ convergence

  /** A manifest the finished move must hold: it was there, or some source has it under its own hash. */
  ghost predicate Target(c: Primitives, w: World, h: Text) {
    h in w.store.manifests || exists m :: m in AllManifests(w.sources) && m.0 == h && Addressed(c, m)
  }

  /** Nothing that was there has changed, and what is new comes from a source. */
  ghost predicate Within(c: Primitives, w0: World, w: World) {
    && (forall h <- w0.store.manifests :: h in w.store.manifests && w.store.manifests[h] == w0.store.manifests[h])
    && (forall h <- w.store.manifests ::
          h in w0.store.manifests
          || ((h, w.store.manifests[h]) in AllManifests(w0.sources) && Addressed(c, (h, w.store.manifests[h]))))
    && (forall m :: m in AllManifests(w.sources) ==> m in AllManifests(w0.sources))
  }

  lemma {:induction false} RemovalShrinksManifests(sources: seq<Source>, i: nat)
    requires i < |sources|
    ensures forall m :: m in AllManifests(Without(sources, i)) ==> m in AllManifests(sources)
  {
    var n := |sources| - 1;
    if i < n {
      WithoutFront(sources, i);
      RemovalShrinksManifests(sources[..n], i);
    } else {
      assert Without(sources, i)[..n] == sources[..n];
    }
  }

  lemma NextStaysWithin(c: Primitives, w0: World, w: World, e: Event)
    requires Within(c, w0, w) && Floor.Sound(w.store.row) && !e.Meanwhile?
    requires w.pc.SnapshotsRead? ==> w.pc.snapshots == w.sources
    ensures Within(c, w0, Next(c, w, e))
  {
    match e
    case Import(fails) =>
      if w.pc.SnapshotsRead? {
        ImportedManifests(c, w.store, w.sources);
        InsertedManifests(w.store.manifests, VerifiedManifests(c, AllManifests(w.sources)));
        VerifiedManifestsMeaning(c, AllManifests(w.sources));
      }
    case RemoveNext(fails) =>
      if w.pc.Removing? && w.pc.next < |w.sources| {
        RemovalShrinksManifests(w.sources, w.pc.next);
      }
    case _ =>
  }

  lemma {:induction false} RunsStayWithin(c: Primitives, w: World, run: seq<Event>)
    requires Initial(c, w) && OnlyMigrating(run)
    ensures Within(c, w, After(c, w, run))
  {
    if run != [] {
      var front := run[..|run| - 1];
      RunsStayWithin(c, w, front);
      ReadsAreCurrent(c, w, front);
      NextStaysWithin(c, w, After(c, w, front), run[|run| - 1]);
    }
  }

  lemma {:induction false} GentleRunsDropNothing(c: Primitives, w: World, run: seq<Event>)
    requires Initial(c, w) && OnlyMigrating(run)
    ensures Dropped(c, w, run) == {}
  {
    if run != [] {
      GentleRunsDropNothing(c, w, run[..|run| - 1]);
      Migration.ReachableIsSafe(c, w, run[..|run| - 1]);
      OnlyPrunesAndReadsTakeManifests(c, After(c, w, run[..|run| - 1]), run[|run| - 1]);
    }
  }

  lemma {:induction false} ManifestComesFromSource(sources: seq<Source>, m: (Text, Bytes))
    requires m in AllManifests(sources)
    ensures exists i, k :: 0 <= i < |sources| && 0 <= k < |sources[i].manifests| && sources[i].manifests[k] == m
  {
    var n := |sources| - 1;
    if m in ManifestsOf(sources[n]) {
      var k :| 0 <= k < |sources[n].manifests| && sources[n].manifests[k] == m;
    } else {
      ManifestComesFromSource(sources[..n], m);
      var i, k :| 0 <= i < n && 0 <= k < |sources[..n][i].manifests| && sources[..n][i].manifests[k] == m;
      assert sources[i].manifests[k] == m;
    }
  }

  /** However often it crashed and restarted, a move that is done holds exactly the manifests that were there,
      unchanged, and those that some source had under their own hash, as it had them. */
  lemma ManifestsConverge(c: Primitives, w: World, run: seq<Event>)
    requires Initial(c, w) && ManifestsOk(c, w.store) && OnlyMigrating(run)
    requires After(c, w, run).store.migration.Done?
    ensures forall h :: h in After(c, w, run).store.manifests <==> Target(c, w, h)
    ensures forall h <- After(c, w, run).store.manifests ::
              var body := After(c, w, run).store.manifests[h];
              if h in w.store.manifests then body == w.store.manifests[h] else (h, body) in AllManifests(w.sources)
  {
    var end := After(c, w, run);
    RunsStayWithin(c, w, run);
    ReachableIsSafe(c, w, run);
    Migration.ReachableIsSafe(c, w, run);
    GentleRunsDropNothing(c, w, run);
    SourcesKeepTheirContents(c, w, run);
    forall h ensures h in end.store.manifests <==> Target(c, w, h) {
      if Target(c, w, h) && h !in w.store.manifests {
        var m :| m in AllManifests(w.sources) && m.0 == h && Addressed(c, m);
        ManifestComesFromSource(w.sources, m);
        var i, k :| 0 <= i < |w.sources| && 0 <= k < |w.sources[i].manifests| && w.sources[i].manifests[k] == m;
        assert CarriedManifests(c, end.store, end.sources[i], {});
      }
    }
  }
}
