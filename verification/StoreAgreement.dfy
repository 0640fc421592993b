/** The buffered store against a plain map from hash to plaintext, over any run of operations. */
module StoreAgreement {
  import opened Prelude
  import opened ChunkStore
  import Canonical
  import Floor
  import Zstd

  datatype Op =
    | DoPut(chunk: Chunk)
    | DoFlush
    | DoRead(hash: Text, expectedSize: int)
    | DoPrune
    | DoPromote(p: Floor.Pointer, chunks: Option<seq<Text>>)
    | DoPutManifest(body: Bytes)
    | DoGetManifest(hash: Text)
    | DoClearActiveIf(p: Floor.Pointer)
    | DoRaiseLegacyFloor(slots: seq<Option<Floor.Pointer>>)
    | DoImportLegacy(copied: seq<Chunk>, manifestRows: seq<(Text, Bytes)>, slots: seq<Option<Floor.Pointer>>)

  /** One operation, and whether its transaction is refused. */
  datatype Event = Event(op: Op, fails: bool)

  function Apply(c: Primitives, s: Store, e: Event): Store {
    match e.op
    case DoPut(chunk) => Put(c, s, chunk, e.fails)
    case DoFlush => Flush(s, e.fails)
    case DoRead(hash, size) => Read(c, s, hash, size, e.fails).0
    case DoPrune => Prune(c, s, e.fails)
    case DoPromote(p, chunks) => Promote(s, p, chunks, e.fails)
    case DoPutManifest(body) => PutManifest(c, s, body, e.fails)
    case DoGetManifest(hash) => GetManifest(c, s, hash).0
    case DoClearActiveIf(p) => ClearActiveIf(s, p, e.fails)
    case DoRaiseLegacyFloor(slots) => RaiseLegacyFloor(s, slots, e.fails)
    case DoImportLegacy(chunks, rows, slots) => ImportLegacy(s, chunks, rows, slots, e.fails)
  }

  // ------------------------------------------------------------------- invariant

  /** Every held chunk is verified, the buffer has no duplicates, and its size is accounted. */
  predicate Sound(c: Primitives, s: Store) {
    && (forall i :: 0 <= i < |s.pending| ==> Acceptable(c, s.pending[i]))
    && (forall i, j :: 0 <= i < j < |s.pending| ==> s.pending[i].hash != s.pending[j].hash)
    && s.pendingBytes == BodyBytes(s.pending)
    && (forall h :: h in s.table ==> s.table[h].hash == h && Acceptable(c, s.table[h]))
  }

  /** What the store holds, buffered or not. */
  function Held(s: Store): map<Text, Chunk> {
    InsertRows(s.table, s.pending)
  }

  function Plain(c: Primitives, chunk: Chunk): Bytes
    requires Acceptable(c, chunk)
  {
    Verify(c, chunk.hash, chunk.body, chunk.size).value
  }

  lemma HeldIsSound(c: Primitives, s: Store)
    requires Sound(c, s)
    ensures forall h :: h in Held(s) ==> Held(s)[h].hash == h && Acceptable(c, Held(s)[h])
    ensures forall h :: h in Held(s) <==> HasChunk(s, h)
  {
    InsertedAreIn(s.table, s.pending);
    forall h ensures h in Held(s) <==> HasChunk(s, h) {
      if Buffered(s.pending, h) {
        var i :| 0 <= i < |s.pending| && s.pending[i].hash == h;
        assert h in set i | 0 <= i < |s.pending| :: s.pending[i].hash;
      }
    }
  }

  predicate AllGood(c: Primitives, held: map<Text, Chunk>) {
    forall h :: h in held ==> held[h].hash == h && Acceptable(c, held[h])
  }

  function PlainMap(c: Primitives, held: map<Text, Chunk>): map<Text, Bytes>
    requires AllGood(c, held)
  {
    map h | h in held :: Plain(c, held[h])
  }

  /** The plain map: hash to plaintext. */
  ghost function Contents(c: Primitives, s: Store): (m: map<Text, Bytes>)
    requires Sound(c, s)
    ensures forall h :: h in m ==> c.sha(m[h]) == h
  {
    HeldIsSound(c, s);
    PlainMap(c, Held(s))
  }

  lemma PlainMapAdds(c: Primitives, held: map<Text, Chunk>, chunk: Chunk)
    requires AllGood(c, held) && Acceptable(c, chunk)
    ensures AllGood(c, held[chunk.hash := chunk])
    ensures PlainMap(c, held[chunk.hash := chunk]) == PlainMap(c, held)[chunk.hash := Plain(c, chunk)]
  {
  }

  lemma PlainMapDrops(c: Primitives, held: map<Text, Chunk>, hash: Text)
    requires AllGood(c, held)
    ensures AllGood(c, held - {hash})
    ensures PlainMap(c, held - {hash}) == PlainMap(c, held) - {hash}
  {
  }

  lemma SoundPut(c: Primitives, s: Store, chunk: Chunk)
    requires Sound(c, s) && Acceptable(c, chunk) && !Buffered(s.pending, chunk.hash)
    ensures var added := s.(pending := s.pending + [chunk], pendingBytes := s.pendingBytes + |chunk.body|);
            && Sound(c, added)
            && Held(added) == if chunk.hash in Held(s) then Held(s) else Held(s)[chunk.hash := chunk]
  {
    var p := s.pending + [chunk];
    assert p[..|p| - 1] == s.pending;
    forall i, j | 0 <= i < j < |p| ensures p[i].hash != p[j].hash {
      if j == |s.pending| { assert s.pending[i].hash != chunk.hash; }
    }
  }

  lemma SoundFlush(c: Primitives, s: Store, fails: bool)
    requires Sound(c, s)
    ensures Sound(c, Flush(s, fails)) && Held(Flush(s, fails)) == Held(s)
    ensures FlushThrows(s, fails) || (Flush(s, fails).pending == [] && Flush(s, fails).table == Held(s))
  {
    HeldIsSound(c, s);
    if s.pending == [] {
      assert Held(s) == s.table;
    }
    var f := Flush(s, fails);
    if !fails {
      assert f.pending == [] && BodyBytes(f.pending) == 0;
      assert Held(f) == f.table;
      assert s.pending == [] ==> s.pendingBytes == 0;
      assert f.table == Held(s);
      forall h | h in f.table ensures f.table[h].hash == h && Acceptable(c, f.table[h]) {
        assert h in Held(s);
      }
    }
  }

  lemma SoundPutOrFlush(c: Primitives, s: Store, chunk: Chunk, fails: bool)
    requires Sound(c, s)
    ensures Sound(c, Put(c, s, chunk, fails))
    ensures Held(Put(c, s, chunk, fails)) ==
              if Acceptable(c, chunk) && chunk.hash !in Held(s) then Held(s)[chunk.hash := chunk] else Held(s)
  {
    HeldIsSound(c, s);
    if Acceptable(c, chunk) && !Buffered(s.pending, chunk.hash) {
      var added := s.(pending := s.pending + [chunk], pendingBytes := s.pendingBytes + |chunk.body|);
      SoundPut(c, s, chunk);
      SoundFlush(c, added, fails);
    }
  }

  lemma SoundRead(c: Primitives, s: Store, hash: Text, size: int, fails: bool)
    requires Sound(c, s)
    ensures Sound(c, Read(c, s, hash, size, fails).0)
  {
    SoundFlush(c, s, fails);
  }

  lemma SoundPrune(c: Primitives, s: Store, fails: bool)
    requires Sound(c, s)
    ensures Sound(c, Prune(c, s, fails))
  {
    SoundFlush(c, s, fails);
  }

  lemma SoundPromote(c: Primitives, s: Store, p: Floor.Pointer, chunks: Option<seq<Text>>, fails: bool)
    requires Sound(c, s)
    ensures Sound(c, Promote(s, p, chunks, fails)) && Held(Promote(s, p, chunks, fails)) == Held(s)
  {
    SoundFlush(c, s, false);
  }

  predicate AllAcceptable(c: Primitives, rows: seq<Chunk>) {
    forall i :: 0 <= i < |rows| ==> Acceptable(c, rows[i])
  }

  /** An import brings only rows that a read will accept. */
  predicate Importable(c: Primitives, op: Op) {
    op.DoImportLegacy? ==> AllAcceptable(c, op.copied)
  }

  lemma SoundImport(c: Primitives, s: Store, rows: seq<Chunk>)
    requires Sound(c, s) && AllAcceptable(c, rows)
    ensures Sound(c, s.(table := InsertRows(s.table, rows)))
  {
    InsertedAreIn(s.table, rows);
    var after := InsertRows(s.table, rows);
    forall h | h in after ensures after[h].hash == h && Acceptable(c, after[h]) {
      if h !in s.table {
        var i :| 0 <= i < |rows| && rows[i].hash == h && after[h] == rows[i];
      }
    }
  }

  /** Every operation keeps the invariant: in particular the byte count of the buffer is exact. */
  lemma ApplyKeepsSound(c: Primitives, s: Store, e: Event)
    requires Sound(c, s) && Importable(c, e.op)
    ensures Sound(c, Apply(c, s, e))
  {
    match e.op
    case DoPut(chunk) => SoundPutOrFlush(c, s, chunk, e.fails);
    case DoFlush => SoundFlush(c, s, e.fails);
    case DoRead(hash, size) => SoundRead(c, s, hash, size, e.fails);
    case DoPrune => SoundPrune(c, s, e.fails);
    case DoPromote(p, chunks) => SoundPromote(c, s, p, chunks, e.fails);
    case DoImportLegacy(rows, _, _) => SoundAfterImport(c, s, e);
    case _ => SideStepKeepsSound(c, s, e);
  }

  lemma SoundAfterImport(c: Primitives, s: Store, e: Event)
    requires Sound(c, s) && e.op.DoImportLegacy? && Importable(c, e.op)
    ensures Sound(c, Apply(c, s, e))
  {
    SoundImport(c, s, e.op.copied);
  }

  lemma SideStepKeepsSound(c: Primitives, s: Store, e: Event)
    requires Sound(c, s)
    requires e.op.DoPutManifest? || e.op.DoGetManifest? || e.op.DoClearActiveIf? || e.op.DoRaiseLegacyFloor?
    ensures Sound(c, Apply(c, s, e))
  {
  }

  // ------------------------------------------------------------ the reference map

  /** The active manifest, when it is readable and well shaped. */
  function ActiveManifest(c: Primitives, s: Store): Option<Canonical.Json> {
    match Floor.Served(s.row)
    case None => None
    case Some(active) =>
      match GetManifest(c, s, active.manifestHash).1
      case Threw => None
      case Ok(bytes) =>
        match c.parse(bytes)
        case None => None
        case Some(manifest) => if WellShaped(manifest) then Some(manifest) else None
  }

  /** A chunk some file of the manifest lists. */
  predicate Names(manifest: Canonical.Json, hash: Text)
    requires WellShaped(manifest)
  {
    exists i :: 0 <= i < |ListingOf(manifest).value| && Some(hash) in ListingOf(manifest).value[i].value
  }

  predicate ImportCommits(s: Store, slots: seq<Option<Floor.Pointer>>, fails: bool) {
    !fails && Floor.WriteRow(s.row, Floor.MergeLegacy(s.row, slots)).Some?
  }

  /** The plaintexts of imported rows, where the map has none yet. */
  function Added(c: Primitives, m: map<Text, Bytes>, rows: seq<Chunk>): map<Text, Bytes>
    requires AllAcceptable(c, rows)
  {
    if rows == [] then m
    else
      var before, last := Added(c, m, rows[..|rows| - 1]), rows[|rows| - 1];
      if last.hash in before then before else before[last.hash := Plain(c, last)]
  }

  /** A read that reaches the table and asks for another size than the plaintext has. */
  predicate Evicts(s: Store, m: map<Text, Bytes>, e: Event) {
    e.op.DoRead? && !FlushThrows(s, e.fails) && e.op.hash in m && |m[e.op.hash]| != e.op.expectedSize
  }

  /** What a prune leaves of the plain map. */
  ghost function Pruned(c: Primitives, s: Store, m: map<Text, Bytes>, fails: bool): map<Text, Bytes> {
    if fails || ActiveManifest(c, s).None? then m
    else map h | h in m && Names(ActiveManifest(c, s).value, h) :: m[h]
  }

  /** The reference: a plain map that a verified put and an import extend, that a prune restricts to
      the chunks the active manifest names, and that a read of a wrong size drops a chunk from. */
  ghost function Reference(c: Primitives, s: Store, m: map<Text, Bytes>, e: Event): map<Text, Bytes>
    requires Importable(c, e.op)
  {
    match e.op
    case DoPut(chunk) =>
      if Acceptable(c, chunk) then m[chunk.hash := Plain(c, chunk)] else m
    case DoPrune => Pruned(c, s, m, e.fails)
    case DoImportLegacy(chunks, _, slots) => if ImportCommits(s, slots, e.fails) then Added(c, m, chunks) else m
    case DoRead(hash, _) => if Evicts(s, m, e) then m - {hash} else m
    case _ => m
  }

  /** Two plaintexts with one digest. */
  predicate Collision(c: Primitives, a: Bytes, b: Bytes) {
    a != b && c.sha(a) == c.sha(b)
  }

  lemma PutAgrees(c: Primitives, s: Store, chunk: Chunk, fails: bool)
    requires Sound(c, s)
    ensures Sound(c, Put(c, s, chunk, fails))
    ensures var m, after := Contents(c, s), Contents(c, Put(c, s, chunk, fails));
            if !Acceptable(c, chunk) then after == m
            else if chunk.hash in m then after == m && c.sha(Plain(c, chunk)) == c.sha(m[chunk.hash])
            else after == m[chunk.hash := Plain(c, chunk)]
  {
    SoundPutOrFlush(c, s, chunk, fails);
    HeldIsSound(c, s);
    if Acceptable(c, chunk) {
      OnlyItsSizeVerifies(c, chunk, chunk.size);
      if chunk.hash !in Held(s) {
        PlainMapAdds(c, Held(s), chunk);
      } else {
        OnlyItsSizeVerifies(c, Held(s)[chunk.hash], chunk.size);
      }
    }
  }

  /** A chunk verifies under its own size and under no other. */
  lemma OnlyItsSizeVerifies(c: Primitives, chunk: Chunk, size: int)
    requires Acceptable(c, chunk)
    ensures |Plain(c, chunk)| == chunk.size && c.sha(Plain(c, chunk)) == chunk.hash
    ensures Verify(c, chunk.hash, chunk.body, size) == if size == chunk.size then Some(Plain(c, chunk)) else None
  {
  }

  /** What a read does to the table it finds after flushing. */
  lemma ReadOnTable(c: Primitives, s: Store, hash: Text, expectedSize: int, fails: bool)
    requires Sound(c, s) && !FlushThrows(s, fails)
    ensures var (after, r) := Read(c, s, hash, expectedSize, fails);
            && after.pending == []
            && (hash !in Held(s) ==> r.Threw? && after.table == Held(s))
            && (hash in Held(s) ==>
                  && Acceptable(c, Held(s)[hash])
                  && (Held(s)[hash].size == expectedSize ==> r == Ok(Plain(c, Held(s)[hash])) && after.table == Held(s))
                  && (Held(s)[hash].size != expectedSize ==> r.Threw? && after.table == Held(s) - {hash}))
  {
    SoundFlush(c, s, fails);
    HeldIsSound(c, s);
    if hash in Held(s) {
      OnlyItsSizeVerifies(c, Held(s)[hash], expectedSize);
    }
  }

  /** A read with the stored size returns the plaintext and changes nothing; with any other size it
      fails and evicts the good row. */
  lemma ReadAgrees(c: Primitives, s: Store, hash: Text, expectedSize: int, fails: bool)
    requires Sound(c, s) && !FlushThrows(s, fails)
    ensures Sound(c, Read(c, s, hash, expectedSize, fails).0)
    ensures var m, (after, r) := Contents(c, s), Read(c, s, hash, expectedSize, fails);
            if hash !in m then r.Threw? && Contents(c, after) == m
            else if |m[hash]| == expectedSize then r == Ok(m[hash]) && Contents(c, after) == m
            else r.Threw? && Contents(c, after) == m - {hash}
  {
    SoundRead(c, s, hash, expectedSize, fails);
    ReadOnTable(c, s, hash, expectedSize, fails);
    HeldIsSound(c, s);
    var after := Read(c, s, hash, expectedSize, fails).0;
    assert Held(after) == after.table;
    if hash in Held(s) {
      OnlyItsSizeVerifies(c, Held(s)[hash], expectedSize);
      PlainMapDrops(c, Held(s), hash);
    }
  }

  lemma {:induction false} HashSetMembers(hashes: Hashes, h: Text)
    requires AllHashed(hashes)
    ensures h in HashSet(hashes) <==> Some(h) in hashes
  {
    if hashes != [] {
      var n := |hashes| - 1;
      HashSetMembers(hashes[..n], h);
      assert hashes == hashes[..n] + [hashes[n]];
    }
  }

  lemma {:induction false} ListedSetMembers(files: Listing, h: Text)
    requires AllListed(files)
    ensures h in ListedSet(files) <==> exists i :: 0 <= i < |files| && Some(h) in files[i].value
  {
    if files != [] {
      var n := |files| - 1;
      ListedSetMembers(files[..n], h);
      HashSetMembers(files[n].value, h);
      if i :| 0 <= i < n && Some(h) in files[i].value {
        assert Some(h) in files[..n][i].value;
      }
    }
  }

  lemma NamesAreActiveHashes(manifest: Canonical.Json, h: Text)
    requires WellShaped(manifest)
    ensures ActiveHashes(manifest).Some? && (h in ActiveHashes(manifest).value <==> Names(manifest, h))
  {
    ListedSetMembers(ListingOf(manifest).value, h);
  }

  lemma PruneReadsActiveManifest(c: Primitives, f: Store)
    requires f.pending == []
    ensures var after := Prune(c, f, false);
            && after.pending == []
            && (ActiveManifest(c, f).None? ==> after.table == f.table)
            && (ActiveManifest(c, f).Some? ==>
                  after.table ==
                    map h | h in f.table && h in ActiveHashes(ActiveManifest(c, f).value).value :: f.table[h])
    ensures Prune(c, f, true).table == f.table && Prune(c, f, true).pending == []
  {
  }

  lemma PruneFlushesFirst(c: Primitives, s: Store, fails: bool)
    requires Sound(c, s)
    ensures FlushThrows(s, fails) ==> Prune(c, s, fails) == s
    ensures !FlushThrows(s, fails) ==> Prune(c, s, fails) == Prune(c, Flush(s, fails), fails)
    ensures ActiveManifest(c, Flush(s, fails)) == ActiveManifest(c, s)
  {
    SoundFlush(c, s, fails);
  }

  /** What a prune leaves in the table. */
  lemma PruneTable(c: Primitives, s: Store, fails: bool)
    requires Sound(c, s)
    ensures fails || ActiveManifest(c, s).None? ==> Held(Prune(c, s, fails)) == Held(s)
    ensures !fails && ActiveManifest(c, s).Some? ==>
              Held(Prune(c, s, fails)) == map h | h in Held(s) && Names(ActiveManifest(c, s).value, h) :: Held(s)[h]
  {
    SoundFlush(c, s, fails);
    PruneFlushesFirst(c, s, fails);
    if !FlushThrows(s, fails) {
      var f := Flush(s, fails);
      PruneReadsActiveManifest(c, f);
      assert Held(Prune(c, f, fails)) == Prune(c, f, fails).table;
      if ActiveManifest(c, s).Some? {
        var manifest := ActiveManifest(c, s).value;
        forall h ensures h in ActiveHashes(manifest).value <==> Names(manifest, h) {
          NamesAreActiveHashes(manifest, h);
        }
      }
    }
  }

  /** A row that reading would evict. */
  predicate BadManifest(c: Primitives, s: Store, hash: Text) {
    hash in s.manifests && (|s.manifests[hash]| > MAX_MANIFEST || c.sha(s.manifests[hash]) != hash)
  }

  /** What a prune leaves of the manifests: the active one alone, with its bytes, when it is readable and
      nothing fails; otherwise all of them, but for an active one that looking for it evicts. */
  lemma PruneManifests(c: Primitives, s: Store, fails: bool)
    ensures !fails && ActiveManifest(c, s).Some? ==>
              var hash := Floor.Served(s.row).value.manifestHash;
              hash in s.manifests && Prune(c, s, fails).manifests == map[hash := s.manifests[hash]]
    ensures fails || ActiveManifest(c, s).None? ==>
              Prune(c, s, fails).manifests ==
              if !FlushThrows(s, fails) && Floor.Served(s.row).Some?
                 && BadManifest(c, s, Floor.Served(s.row).value.manifestHash)
              then s.manifests - {Floor.Served(s.row).value.manifestHash}
              else s.manifests
  {
    if ActiveManifest(c, s).Some? && !fails {
      var hash := Floor.Served(s.row).value.manifestHash;
      assert Prune(c, s, fails).manifests.Keys == {hash};
    }
  }

  /** A prune keeps exactly the chunks the active manifest names; without a readable one, all. */
  lemma PruneAgrees(c: Primitives, s: Store, fails: bool)
    requires Sound(c, s)
    ensures Sound(c, Prune(c, s, fails))
    ensures Contents(c, Prune(c, s, fails)) == Pruned(c, s, Contents(c, s), fails)
  {
    SoundPrune(c, s, fails);
    HeldIsSound(c, s);
    PruneTable(c, s, fails);
  }

  // ------------------------------------------------------------------- an import

  /** A new row of the table shows through the buffer. */
  lemma {:induction false} InsertedUnderBuffer(table: map<Text, Chunk>, chunk: Chunk, pending: seq<Chunk>)
    requires chunk.hash !in table
    ensures InsertRows(table[chunk.hash := chunk], pending) == InsertRows(table, pending)[chunk.hash := chunk]
  {
    if pending != [] {
      InsertedUnderBuffer(table, chunk, pending[..|pending| - 1]);
      InsertedAreIn(table, pending[..|pending| - 1]);
    }
  }

  predicate Extends(m: map<Text, Bytes>, n: map<Text, Bytes>) {
    forall h <- m :: h in n && n[h] == m[h]
  }

  /** No imported row brings a second plaintext for a digest already held. */
  predicate ImportsAlike(c: Primitives, m: map<Text, Bytes>, rows: seq<Chunk>)
    requires AllAcceptable(c, rows)
  {
    forall i :: 0 <= i < |rows| && rows[i].hash in m ==> !Collision(c, Plain(c, rows[i]), m[rows[i].hash])
  }

  predicate Imports(c: Primitives, s: Store, rows: seq<Chunk>) {
    AllAcceptable(c, rows) && Sound(c, s) && Sound(c, s.(table := InsertRows(s.table, rows)))
  }

  /** Row by row, the import adds to the plain map what was not there. */
  lemma {:induction false} ImportedContents(c: Primitives, s: Store, rows: seq<Chunk>)
    requires Imports(c, s, rows) && ImportsAlike(c, Contents(c, s), rows)
    ensures Contents(c, s.(table := InsertRows(s.table, rows))) == Added(c, Contents(c, s), rows)
    ensures Extends(Contents(c, s), Added(c, Contents(c, s), rows))
  {
    if rows == [] {
      assert s.(table := InsertRows(s.table, rows)) == s;
    } else {
      var front, last := rows[..|rows| - 1], rows[|rows| - 1];
      SoundImport(c, s, front);
      ImportedContents(c, s, front);
      OneMoreRow(c, s, front, last);
    }
  }

  lemma OneMoreRow(c: Primitives, s: Store, front: seq<Chunk>, last: Chunk)
    requires Imports(c, s, front) && Acceptable(c, last)
    requires Contents(c, s.(table := InsertRows(s.table, front))) == Added(c, Contents(c, s), front)
    requires Extends(Contents(c, s), Added(c, Contents(c, s), front))
    requires last.hash in Contents(c, s) ==> !Collision(c, Plain(c, last), Contents(c, s)[last.hash])
    requires Sound(c, s.(table := InsertRows(s.table, front + [last])))
    ensures var m := Added(c, Contents(c, s), front);
            Contents(c, s.(table := InsertRows(s.table, front + [last]))) ==
              if last.hash in m then m else m[last.hash := Plain(c, last)]
  {
    var table := InsertRows(s.table, front);
    var before := s.(table := table);
    assert (front + [last])[..|front|] == front;
    HeldIsSound(c, before);
    if last.hash !in table {
      InsertedUnderBuffer(table, last, s.pending);
      PlainMapAdds(c, Held(before), last);
      if last.hash in Held(before) {
        BufferedIsContent(c, s, front, last.hash);
        OnlyItsSizeVerifies(c, last, last.size);
      }
    } else {
      assert InsertRows(s.table, front + [last]) == table;
    }
  }

  /** What shows through from the buffer was content before the import. */
  lemma BufferedIsContent(c: Primitives, s: Store, rows: seq<Chunk>, h: Text)
    requires Imports(c, s, rows)
    requires h in InsertRows(InsertRows(s.table, rows), s.pending) && h !in InsertRows(s.table, rows)
    ensures h in Contents(c, s)
  {
    InsertedAreIn(InsertRows(s.table, rows), s.pending);
    InsertedAreIn(s.table, s.pending);
  }

  lemma ImportAgrees(c: Primitives, s: Store, e: Event)
    requires Sound(c, s) && e.op.DoImportLegacy? && Importable(c, e.op) && ImportsAlike(c, Contents(c, s), e.op.copied)
    ensures Sound(c, Apply(c, s, e)) && Contents(c, Apply(c, s, e)) == Reference(c, s, Contents(c, s), e)
  {
    SoundImport(c, s, e.op.copied);
    ImportedContents(c, s, e.op.copied);
    var after := Apply(c, s, e);
    if ImportCommits(s, e.op.slots, e.fails) {
      assert Held(after) == Held(s.(table := InsertRows(s.table, e.op.copied)));
    }
  }

  // -------------------------------------------------------------- over whole runs

  function After(c: Primitives, s: Store, run: seq<Event>): Store {
    if run == [] then s else Apply(c, After(c, s, run[..|run| - 1]), run[|run| - 1])
  }

  predicate AllImportable(c: Primitives, run: seq<Event>) {
    forall i :: 0 <= i < |run| ==> Importable(c, run[i].op)
  }

  ghost function ReferenceAfter(c: Primitives, s: Store, m: map<Text, Bytes>, run: seq<Event>): map<Text, Bytes>
    requires AllImportable(c, run)
  {
    if run == [] then m
    else
      var front := run[..|run| - 1];
      Reference(c, After(c, s, front), ReferenceAfter(c, s, m, front), run[|run| - 1])
  }

  /** What a step brings is no second plaintext for a digest already held. */
  predicate BringsNoCollision(c: Primitives, m: map<Text, Bytes>, e: Event)
    requires Importable(c, e.op)
  {
    && (e.op.DoPut? && Acceptable(c, e.op.chunk) && e.op.chunk.hash in m ==>
          !Collision(c, Plain(c, e.op.chunk), m[e.op.chunk.hash]))
    && (e.op.DoImportLegacy? ==> ImportsAlike(c, m, e.op.copied))
  }

  ghost predicate NoCollisions(c: Primitives, s: Store, m: map<Text, Bytes>, run: seq<Event>)
    requires AllImportable(c, run)
  {
    run == [] || (
      var front := run[..|run| - 1];
      NoCollisions(c, s, m, front) && BringsNoCollision(c, ReferenceAfter(c, s, m, front), run[|run| - 1]))
  }

  /** The store and the reference agree after every run of puts, flushes, reads, prunes, promotes, floor
      merges and imports, whichever transactions are refused and whatever sizes the reads ask for. */
  lemma {:induction false} RunsAgree(c: Primitives, s: Store, run: seq<Event>)
    requires Sound(c, s) && AllImportable(c, run) && NoCollisions(c, s, Contents(c, s), run)
    ensures Sound(c, After(c, s, run))
    ensures Contents(c, After(c, s, run)) == ReferenceAfter(c, s, Contents(c, s), run)
  {
    if run != [] {
      var n := |run| - 1;
      RunsAgree(c, s, run[..n]);
      StepAgrees(c, After(c, s, run[..n]), run[n]);
    }
  }

  lemma StepAgrees(c: Primitives, s: Store, e: Event)
    requires Sound(c, s) && Importable(c, e.op) && BringsNoCollision(c, Contents(c, s), e)
    ensures Sound(c, Apply(c, s, e))
    ensures Contents(c, Apply(c, s, e)) == Reference(c, s, Contents(c, s), e)
  {
    match e.op
    case DoPut(chunk) => PutAgrees(c, s, chunk, e.fails);
    case DoFlush => SoundFlush(c, s, e.fails);
    case DoRead(hash, size) => ReadStepAgrees(c, s, e);
    case DoPrune => PruneAgrees(c, s, e.fails);
    case DoPromote(p, chunks) => SoundPromote(c, s, p, chunks, e.fails);
    case DoImportLegacy(_, _, _) => ImportAgrees(c, s, e);
    case _ => SideStepAgrees(c, s, e);
  }

  lemma ReadStepAgrees(c: Primitives, s: Store, e: Event)
    requires Sound(c, s) && e.op.DoRead?
    ensures Sound(c, Apply(c, s, e))
    ensures Contents(c, Apply(c, s, e)) == Reference(c, s, Contents(c, s), e)
  {
    if !FlushThrows(s, e.fails) { ReadAgrees(c, s, e.op.hash, e.op.expectedSize, e.fails); }
  }

  /** Operations on manifests and the row leave the chunks alone. */
  lemma SideStepAgrees(c: Primitives, s: Store, e: Event)
    requires Sound(c, s)
    requires e.op.DoPutManifest? || e.op.DoGetManifest? || e.op.DoClearActiveIf? || e.op.DoRaiseLegacyFloor?
    ensures Sound(c, Apply(c, s, e)) && Contents(c, Apply(c, s, e)) == Contents(c, s)
  {
    assert Held(Apply(c, s, e)) == Held(s);
  }

  /** Every read asks for the size the chunk really has. */
  ghost predicate ReadsAreExact(c: Primitives, s: Store, m: map<Text, Bytes>, run: seq<Event>)
    requires AllImportable(c, run)
  {
    run == [] || (
      var front := run[..|run| - 1];
      ReadsAreExact(c, s, m, front) && !Evicts(After(c, s, front), ReferenceAfter(c, s, m, front), run[|run| - 1]))
  }

  /** The plain map whose reads never drop anything, as MemoryCacheStore keeps it. */
  ghost function PlainAfter(c: Primitives, s: Store, m: map<Text, Bytes>, run: seq<Event>): map<Text, Bytes>
    requires AllImportable(c, run)
  {
    if run == [] then m
    else
      var front, e := run[..|run| - 1], run[|run| - 1];
      var before := PlainAfter(c, s, m, front);
      if e.op.DoRead? then before else Reference(c, After(c, s, front), before, e)
  }

  /** While reads are exact the reference is that plain map. */
  lemma {:induction false} ExactReadsKeepThePlainMap(c: Primitives, s: Store, m: map<Text, Bytes>, run: seq<Event>)
    requires AllImportable(c, run) && ReadsAreExact(c, s, m, run)
    ensures ReferenceAfter(c, s, m, run) == PlainAfter(c, s, m, run)
  {
    if run != [] {
      ExactReadsKeepThePlainMap(c, s, m, run[..|run| - 1]);
    }
  }

  /** Where the plain map keeps a chunk that was asked for with the wrong size, this store does
      not: the read leaves the contents as they were if and only if the size is the stored one
      (or there is no such chunk). */
  lemma ReadKeepsContentsIff(c: Primitives, s: Store, hash: Text, expectedSize: int, fails: bool)
    requires Sound(c, s) && !FlushThrows(s, fails)
    ensures Sound(c, Read(c, s, hash, expectedSize, fails).0)
    ensures Contents(c, Read(c, s, hash, expectedSize, fails).0) == Contents(c, s) <==>
              (hash in Contents(c, s) ==> |Contents(c, s)[hash]| == expectedSize)
  {
    ReadAgrees(c, s, hash, expectedSize, fails);
  }

  /** A refused promotion changes nothing; a committed one leaves every listed chunk in the table,
      an empty buffer, and the pointer at the floor. */
  lemma PromotionIsAllOrNothing(c: Primitives, s: Store, p: Floor.Pointer, chunks: Option<seq<Text>>, fails: bool)
    requires Sound(c, s) && Floor.Sound(s.row)
    ensures var after := Promote(s, p, chunks, fails);
            if !PromotionCommits(s, p, chunks, fails) then after == s
            else
              && after.pending == [] && after.pendingBytes == 0
              && (chunks.Some? ==> forall h :: h in chunks.value ==> h in after.table)
              && after.row.floor == Max(s.row.floor, Floor.SequenceOf(p))
              && after.row.identity == Some(Floor.IdentityOf(p))
              && after.migration == s.migration && after.manifests == s.manifests
  {
    if PromotionCommits(s, p, chunks, fails) {
      Floor.TriggerNeverFires(s.row, Floor.Promote(p, true));
      PresentMeansAll(Held(s), WantedSet(chunks));
    }
  }

  lemma PresentMeansAll(table: map<Text, Chunk>, wanted: set<Text>)
    ensures AllPresent(table, wanted) <==> wanted <= table.Keys
  {
    if wanted <= table.Keys {
      assert table.Keys * wanted == wanted;
    } else {
      var h :| h in wanted && h !in table.Keys;
      assert table.Keys * wanted <= wanted - {h};
      SubsetIsSmaller(table.Keys * wanted, wanted - {h});
    }
  }

  lemma {:induction false} SubsetIsSmaller(a: set<Text>, b: set<Text>)
    requires a <= b
    ensures |a| <= |b|
  {
    if a != {} {
      var x :| x in a;
      SubsetIsSmaller(a - {x}, b - {x});
    }
  }

  /** A prune never drops a chunk that the active manifest names. */
  lemma PruneKeepsActiveChunks(c: Primitives, s: Store, fails: bool, h: Text)
    requires Sound(c, s) && HasChunk(s, h)
    requires ActiveManifest(c, s).Some? && Names(ActiveManifest(c, s).value, h)
    ensures Sound(c, Prune(c, s, fails)) && HasChunk(Prune(c, s, fails), h)
    ensures h in Contents(c, s) && h in Contents(c, Prune(c, s, fails))
            && Contents(c, Prune(c, s, fails))[h] == Contents(c, s)[h]
  {
    HeldIsSound(c, s);
    SoundPrune(c, s, fails);
    HeldIsSound(c, Prune(c, s, fails));
    PruneTable(c, s, fails);
  }

  /** While transactions succeed the buffer stays under both of its limits. */
  lemma BufferStaysBounded(c: Primitives, s: Store, op: Op)
    requires Sound(c, s) && |s.pending| < FLUSH_CHUNKS && s.pendingBytes < FLUSH_BYTES
    ensures var after := Apply(c, s, Event(op, false));
            |after.pending| < FLUSH_CHUNKS && after.pendingBytes < FLUSH_BYTES
  {
  }

  /** An accepted chunk that is not buffered goes into the buffer, and the table stays as it is, unless a limit
      is reached; then everything goes into the table at once, or the put throws and the buffer keeps it. */
  lemma PutsBufferUntilDue(c: Primitives, s: Store, chunk: Chunk, fails: bool)
    requires Sound(c, s) && Acceptable(c, chunk) && !Buffered(s.pending, chunk.hash)
    ensures var t := Put(c, s, chunk, fails);
            var due := |s.pending| + 1 >= FLUSH_CHUNKS || BodyBytes(s.pending) + |chunk.body| >= FLUSH_BYTES;
            && (PutThrows(c, s, chunk, fails) <==> due && fails)
            && (!due || fails ==> t.table == s.table && t.pending == s.pending + [chunk])
            && (due && !fails ==> t.pending == [] && t.table == InsertRows(s.table, s.pending + [chunk]))
            && t.manifests == s.manifests && t.row == s.row && t.migration == s.migration
  {
  }

  // --------------------------------------------------------- the row's own history

  /** The floor-row step an operation amounts to. */
  function RowStep(s: Store, e: Event): Floor.Step {
    match e.op
    case DoPromote(p, chunks) => PromotionStep(s, p, chunks, e.fails)
    case DoClearActiveIf(p) => Floor.Step(Floor.ClearActiveIf(p), !e.fails)
    case DoRaiseLegacyFloor(slots) => Floor.Step(Floor.MergeSlots(slots), !e.fails)
    case DoImportLegacy(_, _, slots) => Floor.Step(Floor.MergeSlots(slots), !e.fails)
    case _ => Floor.Step(Floor.Untouched, !e.fails)
  }

  function RowSteps(c: Primitives, s: Store, run: seq<Event>): seq<Floor.Step> {
    if run == [] then []
    else
      var front := run[..|run| - 1];
      RowSteps(c, s, front) + [RowStep(After(c, s, front), run[|run| - 1])]
  }

  /** The store's row takes exactly the steps whose runs `Floor` reasons about, so the floor of a
      live store never goes down. */
  lemma {:induction false} StoreRunsAreFloorRuns(c: Primitives, s: Store, run: seq<Event>)
    requires Floor.Sound(s.row)
    ensures |RowSteps(c, s, run)| == |run|
    ensures After(c, s, run).row == Floor.After(s.row, RowSteps(c, s, run))
    ensures Floor.Sound(After(c, s, run).row) && After(c, s, run).row.floor >= s.row.floor
  {
    if run != [] {
      var n := |run| - 1;
      var front := run[..n];
      StoreRunsAreFloorRuns(c, s, front);
      var before := After(c, s, front);
      var step := RowStep(before, run[n]);
      RowTakesStep(c, before, run[n]);
      assert RowSteps(c, s, run)[..n] == RowSteps(c, s, front);
      Floor.NextIsSound(before.row, step);
    }
  }

  lemma RowTakesStep(c: Primitives, s: Store, e: Event)
    requires Floor.Sound(s.row)
    ensures Apply(c, s, e).row == Floor.Next(s.row, RowStep(s, e))
  {
    Floor.TriggerNeverFires(s.row, RowStep(s, e).op);
  }

  /** On the library's own frame walk everything a sound store holds is one whole frame that declares
      the size it is stored under, so no decoder is ever given a second frame. */
  lemma HeldBodiesAreSingleFrames(sha: Bytes -> Text, inflate: Bytes -> Option<Bytes>,
                                  parse: Bytes -> Option<Canonical.Json>, s: Store, hash: Text)
    requires Sound(OnZstd(sha, inflate, parse), s) && HasChunk(s, hash)
    ensures hash in Held(s)
    ensures exists f :: Zstd.ValidFrame(f) && f.size == Held(s)[hash].size && Zstd.Encode(f) == Held(s)[hash].body
  {
    var c := OnZstd(sha, inflate, parse);
    HeldIsSound(c, s);
    var chunk := Held(s)[hash];
    assert Acceptable(c, chunk);
    assert c.declared(chunk.body) == Zstd.DeclaredContentSize(chunk.body);
    Zstd.DeclaresExactlyOneFrame(chunk.body, chunk.size);
  }
}
