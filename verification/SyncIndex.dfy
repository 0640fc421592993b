/**
 * `syncIndex` (src/engine/sync.ts): from the signed latest pointer to a promoted release, or to the
 * cached one when the network is down. The answers of the network, of the clock and of storage are
 * whatever they are; the contracts say what holds when a pointer is promoted or served.
 */
module SyncIndex {
  import opened Prelude
  import opened Canonical
  import ChunkStore
  import Floor
  import Manifest
  import opened PointerJson
  import Release
  import StoreAgreement

  const MAX_POINTER_BYTES: nat := 16 * 1024
  const MAX_TOTAL_FETCH: nat := 256 * 1024 * 1024

  datatype Answer = Arrived(bytes: Bytes) | Unreachable | Failed

  datatype Net = Net(latest: Answer, manifest: Text -> Answer, chunk: Text -> Answer)

  /** `verify` is the trust root: signed bytes, signature, key id. An absent identity skips its check. */
  datatype Args = Args(
    verify: (Bytes, Text, Field<Text>) -> bool, now: Option<real>,
    bundleId: Field<Text>, channel: Field<Text>, wanted: Option<seq<Text>>, maxTotal: nat)

  /** Which of storage's transactions are refused: the put of the manifest, that of the k-th listed chunk, the
      read of chunk j of file k, the promotion, the same reads for the cache, and whether it was the quota. */
  datatype Disk = Disk(
    manifest: bool, put: nat -> bool, read: (nat, nat) -> bool, promotion: bool,
    cachedRead: (nat, nat) -> bool, quota: bool)

  ghost predicate Never(refuses: nat -> bool) {
    forall k :: !refuses(k)
  }

  ghost predicate NeverRead(refuses: (nat, nat) -> bool) {
    forall k, j :: !refuses(k, j)
  }

  /** Nothing is refused. */
  ghost predicate Quiet(d: Disk) {
    !d.manifest && Never(d.put) && NeverRead(d.read) && !d.promotion && NeverRead(d.cachedRead) && !d.quota
  }

  datatype Outcome =
    | Promoted(pointer: Floor.Pointer, files: seq<Manifest.File>)
    | Cached(pointer: Floor.Pointer, expired: bool)
    | Threw(why: Refusal)

  /** Why a sync ends without a release. */
  datatype Refusal =
    | BadArguments
    | NothingCached                          // the network is down and the cache cannot be served
    | PointerRefused
    | Rollback(reason: Release.Refusal)
    | ManifestRefused
    | NotListed                              // a wanted path is not in the manifest
    | Incomplete                             // a transfer, a rebuild or the store failed

  // -------------------------------------------------------------------- the checks

  predicate Authentic(args: Args, v: Json, p: Floor.Pointer) {
    args.verify(SigningBytes(v), p.signature, p.keyId)
  }

  predicate Expected(args: Args, p: Floor.Pointer) {
    && (args.bundleId.Absent? || p.bundleId.OrNull() == args.bundleId.OrNull())
    && (args.channel.Absent? || p.channel.OrNull() == args.channel.OrNull())
  }

  /** None when the clock is not finite; it is read only for pointers that carry a deadline. */
  function Expired(args: Args, p: Floor.Pointer): Option<bool> {
    if !p.expiresAt.Value? then Some(false)
    else if args.now.None? then None
    else Some(args.now.value >= p.expiresAt.v as real)
  }

  // ----------------------------------------------------------------- selecting files

  predicate ValidWanted(wanted: Option<seq<Text>>) {
    wanted.Some? ==>
      && |wanted.value| <= Manifest.MAX_FILES
      && (forall k :: 0 <= k < |wanted.value| ==> Manifest.SafePath(wanted.value[k]))
      && Distinct(wanted.value)
  }

  /** A wanted path names a file, or with a final slash everything under it. */
  predicate Matches(want: Text, path: Text) {
    if want != [] && want[|want| - 1] == Manifest.SLASH then want <= path else want == path
  }

  predicate WantedBy(wants: seq<Text>, path: Text) {
    exists k :: 0 <= k < |wants| && Matches(wants[k], path)
  }

  function Filter(wants: seq<Text>, files: seq<Manifest.File>): (r: seq<Manifest.File>)
    ensures forall f :: f in r <==> f in files && WantedBy(wants, f.path)
  {
    if files == [] then []
    else
      var front, last := Filter(wants, files[..|files| - 1]), files[|files| - 1];
      if WantedBy(wants, last.path) then front + [last] else front
  }

  predicate EachWantIsListed(wants: seq<Text>, files: seq<Manifest.File>) {
    forall k :: 0 <= k < |wants| ==> exists i :: 0 <= i < |files| && Matches(wants[k], files[i].path)
  }

  function Selected(files: seq<Manifest.File>, wanted: Option<seq<Text>>): Option<seq<Manifest.File>> {
    if wanted.None? then Some(files)
    else if EachWantIsListed(wanted.value, files) then Some(Filter(wanted.value, files))
    else None
  }

  // ------------------------------------------------------------------- reassembling

  function Flatten(parts: seq<Bytes>): Bytes {
    if parts == [] then [] else Flatten(parts[..|parts| - 1]) + parts[|parts| - 1]
  }

  function Zeros(n: nat): Bytes {
    seq(n, _ => 0)
  }

  type Table = map<Text, ChunkStore.Chunk>

  /** The plaintext of a chunk as the store has it: a row a read accepts at the size the manifest gives. */
  function Plain(c: ChunkStore.Primitives, table: Table, ref: Manifest.Ref): Option<Bytes> {
    if ref.hash !in table then None
    else
      var body := table[ref.hash].body;
      if 0 < |body| <= ChunkStore.MAX_COMPRESSED then ChunkStore.Verify(c, ref.hash, body, ref.size) else None
  }

  /** A file's chunks end to end, when all of them are in the store. */
  function Assembled(c: ChunkStore.Primitives, table: Table, chunks: seq<Manifest.Ref>): Option<Bytes> {
    if chunks == [] then Some([])
    else
      var front, last := Assembled(c, table, chunks[..|chunks| - 1]), Plain(c, table, chunks[|chunks| - 1]);
      if front.Some? && last.Some? then Some(front.value + last.value) else None
  }

  /** The store has the file: its chunks verify, and end to end have the file's size and hash. */
  predicate Rebuilt(c: ChunkStore.Primitives, table: Table, file: Manifest.File) {
    match Assembled(c, table, file.chunks)
    case None => false
    case Some(bytes) => |bytes| == file.size && c.sha(bytes) == file.sha
  }

  predicate FilesRebuilt(c: ChunkStore.Primitives, table: Table, files: seq<Manifest.File>) {
    forall k :: 0 <= k < |files| ==> Rebuilt(c, table, files[k])
  }

  lemma {:induction false} AssembledSize(c: ChunkStore.Primitives, table: Table, chunks: seq<Manifest.Ref>)
    requires Assembled(c, table, chunks).Some?
    ensures |Assembled(c, table, chunks).value| == Manifest.TotalSize(chunks)
  {
    if chunks != [] {
      AssembledSize(c, table, chunks[..|chunks| - 1]);
    }
  }

  /** Every row of the one table is in the other. */
  predicate Keeps(table: Table, later: Table) {
    forall h <- table :: h in later && later[h] == table[h]
  }

  lemma {:induction false} KeptAssembles(c: ChunkStore.Primitives, table: Table, later: Table,
                                         chunks: seq<Manifest.Ref>)
    requires Keeps(table, later) && Assembled(c, table, chunks).Some?
    ensures Assembled(c, later, chunks) == Assembled(c, table, chunks)
  {
    if chunks != [] {
      KeptAssembles(c, table, later, chunks[..|chunks| - 1]);
    }
  }

  lemma KeptFiles(c: ChunkStore.Primitives, table: Table, later: Table, files: seq<Manifest.File>)
    requires Keeps(table, later) && FilesRebuilt(c, table, files)
    ensures FilesRebuilt(c, later, files)
  {
    forall k | 0 <= k < |files| ensures Rebuilt(c, later, files[k]) {
      assert Rebuilt(c, table, files[k]);
      KeptAssembles(c, table, later, files[k].chunks);
    }
  }

  /** All that the store holds, buffered or not. */
  function Held(s: ChunkStore.Store): Table {
    StoreAgreement.Held(s)
  }

  lemma {:induction false} AssembledParts(c: ChunkStore.Primitives, table: Table, chunks: seq<Manifest.Ref>, k: nat)
    requires k < |chunks| && Assembled(c, table, chunks).Some?
    ensures Plain(c, table, chunks[k]).Some?
  {
    if k < |chunks| - 1 {
      AssembledParts(c, table, chunks[..|chunks| - 1], k);
    }
  }

  /** A read that is not refused succeeds exactly if the store holds the chunk at that size. */
  lemma ReadsSucceedExactly(c: ChunkStore.Primitives, s: ChunkStore.Store, ref: Manifest.Ref)
    ensures ChunkStore.Read(c, s, ref.hash, ref.size, false).1.Ok? <==> Plain(c, Held(s), ref).Some?
  {
  }

  /** A read that succeeds leaves what is held. */
  lemma ReadsKeepHeld(c: ChunkStore.Primitives, s: ChunkStore.Store, ref: Manifest.Ref, fails: bool)
    requires ChunkStore.Read(c, s, ref.hash, ref.size, fails).1.Ok?
    ensures Held(ChunkStore.Read(c, s, ref.hash, ref.size, fails).0) == Held(s)
  {
  }

  /** What is in the table is held. */
  lemma TableIsHeld(s: ChunkStore.Store)
    ensures Keeps(s.table, Held(s))
  {
    ChunkStore.InsertedAreIn(s.table, s.pending);
  }

  lemma {:induction false} FlattenPrefix(parts: seq<Bytes>, k: nat)
    requires k <= |parts|
    ensures |Flatten(parts[..k])| <= |Flatten(parts)|
  {
    if k == |parts| {
      assert parts[..k] == parts;
    } else {
      FlattenPrefix(parts[..|parts| - 1], k);
      assert parts[..|parts| - 1][..k] == parts[..k];
    }
  }

  /** `concat`: parts copied end to end into a buffer; a part that does not fit throws. */
  method Concat(parts: seq<Bytes>, expected: nat) returns (out: Option<array<Byte>>)
    ensures out.Some? <==> |Flatten(parts)| <= expected
    ensures out.Some? ==>
              fresh(out.value) && out.value[..] == Flatten(parts) + Zeros(expected - |Flatten(parts)|)
  {
    var buffer := new Byte[expected](_ => 0);
    var offset := 0;
    for k := 0 to |parts|
      invariant offset == |Flatten(parts[..k])| <= expected
      invariant buffer[..offset] == Flatten(parts[..k])
      invariant forall j :: offset <= j < expected ==> buffer[j] == 0
    {
      assert parts[..k + 1][..k] == parts[..k];
      FlattenPrefix(parts, k + 1);
      if offset + |parts[k]| > expected {
        return None;
      }
      ghost var before := buffer[..offset];
      forall j | 0 <= j < |parts[k]| {
        buffer[offset + j] := parts[k][j];
      }
      assert buffer[..offset] == before;
      assert buffer[offset..offset + |parts[k]|] == parts[k];
      assert buffer[..offset + |parts[k]|] == buffer[..offset] + buffer[offset..offset + |parts[k]|];
      offset := offset + |parts[k]|;
    }
    assert parts[..|parts|] == parts;
    assert buffer[..] == buffer[..offset] + Zeros(expected - offset);
    out := Some(buffer);
  }

  // ------------------------------------------------------------------ the operations

  lemma PutsAndReadsKeepTheRest(c: ChunkStore.Primitives, s: ChunkStore.Store)
    ensures forall chunk, fails ::
              && ChunkStore.Put(c, s, chunk, fails).row == s.row
              && ChunkStore.Put(c, s, chunk, fails).manifests == s.manifests
    ensures forall hash, size, fails ::
              ChunkStore.Read(c, s, hash, size, fails).0.row == s.row
              && ChunkStore.Read(c, s, hash, size, fails).0.manifests == s.manifests
  {
  }

  /** Chunks do not go away by putting another one. */
  lemma PutsKeepChunks(c: ChunkStore.Primitives, s: ChunkStore.Store, chunk: ChunkStore.Chunk, fails: bool, hash: Text)
    requires ChunkStore.HasChunk(s, hash)
    ensures ChunkStore.HasChunk(ChunkStore.Put(c, s, chunk, fails), hash)
  {
    var t := ChunkStore.Put(c, s, chunk, fails);
    var added := s.pending + [chunk];
    ChunkStore.InsertedAreIn(s.table, added);
    if ChunkStore.Buffered(s.pending, hash) {
      var i :| 0 <= i < |s.pending| && s.pending[i].hash == hash;
      assert added[i].hash == hash;
    }
    assert t == s || t.pending == added || (t.pending == [] && t.table == ChunkStore.InsertRows(s.table, added));
  }

  /** A read that succeeds gives what the table has, and takes nothing out of it. */
  lemma ReadsAreVerified(c: ChunkStore.Primitives, s: ChunkStore.Store, ref: Manifest.Ref, fails: bool)
    requires ChunkStore.Read(c, s, ref.hash, ref.size, fails).1.Ok?
    ensures var (after, r) := ChunkStore.Read(c, s, ref.hash, ref.size, fails);
            Keeps(s.table, after.table) && Plain(c, after.table, ref) == Some(r.value)
  {
    ChunkStore.InsertedAreIn(s.table, s.pending);
  }

  lemma OnePartMore(c: ChunkStore.Primitives, table: Table, later: Table, chunks: seq<Manifest.Ref>, k: nat,
                    read: seq<Bytes>, part: Bytes)
    requires k < |chunks| && Assembled(c, table, chunks[..k]) == Some(Flatten(read))
    requires Keeps(table, later) && Plain(c, later, chunks[k]) == Some(part)
    ensures Assembled(c, later, chunks[..k + 1]) == Some(Flatten(read + [part]))
  {
    KeptAssembles(c, table, later, chunks[..k]);
    assert chunks[..k + 1][..k] == chunks[..k];
    assert (read + [part])[..|read|] == read;
  }

  method ReadParts(store: ChunkStore.SqliteCacheStore, chunks: seq<Manifest.Ref>, refuses: nat -> bool)
      returns (parts: Option<seq<Bytes>>)
    modifies store
    ensures parts.Some? ==> Held(store.Value()) == Held(old(store.Value()))
    ensures Never(refuses) ==> (parts.Some? <==> Assembled(store.c, Held(old(store.Value())), chunks).Some?)
    ensures store.row == old(store.row) && store.manifests == old(store.manifests)
    ensures parts.Some? ==> Keeps(old(store.table), store.table)
    ensures parts.Some? ==> Assembled(store.c, store.table, chunks) == Some(Flatten(parts.value))
  {
    var read: seq<Bytes> := [];
    for j := 0 to |chunks|
      invariant store.row == old(store.row) && store.manifests == old(store.manifests)
      invariant Keeps(old(store.table), store.table)
      invariant Assembled(store.c, store.table, chunks[..j]) == Some(Flatten(read))
      invariant Held(store.Value()) == Held(old(store.Value()))
    {
      PutsAndReadsKeepTheRest(store.c, store.Value());
      ghost var before := store.Value();
      var part := store.GetChunk(chunks[j].hash, chunks[j].size, refuses(j));
      ReadsSucceedExactly(store.c, before, chunks[j]);
      if part.Threw? {
        if Assembled(store.c, Held(before), chunks).Some? { AssembledParts(store.c, Held(before), chunks, j); }
        return None;
      }
      ReadsKeepHeld(store.c, before, chunks[j], refuses(j));
      ReadsAreVerified(store.c, before, chunks[j], refuses(j));
      OnePartMore(store.c, before.table, store.table, chunks, j, read, part.value);
      read := read + [part.value];
    }
    assert chunks[..|chunks|] == chunks;
    TableIsHeld(store.Value());
    KeptAssembles(store.c, store.table, Held(store.Value()), chunks);
    return Some(read);
  }

  /** One file from its chunks; refused unless the bytes hash to what was signed. */
  method Reassemble(store: ChunkStore.SqliteCacheStore, file: Manifest.File, refuses: nat -> bool)
      returns (blob: Option<Bytes>)
    requires Manifest.TotalSize(file.chunks) == file.size
    modifies store
    ensures blob.Some? ==> Held(store.Value()) == Held(old(store.Value()))
    ensures Never(refuses) ==> (blob.Some? <==> Rebuilt(store.c, Held(old(store.Value())), file))
    ensures store.row == old(store.row) && store.manifests == old(store.manifests)
    ensures blob.Some? ==> Keeps(old(store.table), store.table)
    ensures blob.Some? ==> Rebuilt(store.c, store.table, file) && Assembled(store.c, store.table, file.chunks) == blob
  {
    var parts := ReadParts(store, file.chunks, refuses);
    if parts.None? {
      return None;
    }
    AssembledSize(store.c, store.table, file.chunks);
    TableIsHeld(store.Value());
    KeptAssembles(store.c, store.table, Held(store.Value()), file.chunks);
    var out := Concat(parts.value, file.size);
    if out.None? {
      return None;
    }
    var bytes := out.value[..];
    assert bytes == Flatten(parts.value);
    if store.c.sha(bytes) != file.sha {
      return None;
    }
    return Some(bytes);
  }

  /** Success means that the store has every one of the files, all at once. */
  method VerifyReassembly(store: ChunkStore.SqliteCacheStore, files: seq<Manifest.File>, refuses: (nat, nat) -> bool)
      returns (ok: bool)
    requires Manifest.ChunksFill(files)
    modifies store
    ensures ok ==> Held(store.Value()) == Held(old(store.Value()))
    ensures NeverRead(refuses) ==> (ok <==> FilesRebuilt(store.c, Held(old(store.Value())), files))
    ensures store.row == old(store.row) && store.manifests == old(store.manifests)
    ensures ok ==> FilesRebuilt(store.c, store.table, files)
  {
    for k := 0 to |files|
      invariant store.row == old(store.row) && store.manifests == old(store.manifests)
      invariant FilesRebuilt(store.c, store.table, files[..k])
      invariant Held(store.Value()) == Held(old(store.Value()))
    {
      ghost var before := store.table;
      var blob := Reassemble(store, files[k], (j: nat) => refuses(k, j));
      if blob.None? {
        return false;
      }
      KeptFiles(store.c, before, store.table, files[..k]);
      assert files[..k + 1] == files[..k] + [files[k]];
    }
    assert files[..|files|] == files;
    TableIsHeld(store.Value());
    KeptFiles(store.c, store.table, Held(store.Value()), files);
    ok := true;
  }

  // ---------------------------------------------------------------------- transfers

  /** What is held once every chunk that was not has been put as it arrived. */
  function Delivered(net: Net, held: Table, refs: seq<Manifest.Ref>): Table {
    if refs == [] then held
    else
      var before, last := Delivered(net, held, refs[..|refs| - 1]), refs[|refs| - 1];
      if last.hash in before then before else before[last.hash := Sent(net, last)]
  }

  /** The chunk as it arrives. */
  function Sent(net: Net, ref: Manifest.Ref): ChunkStore.Chunk {
    var answer := net.chunk(ref.hash);
    ChunkStore.Chunk(ref.hash, ref.size, if answer.Arrived? then answer.bytes else [])
  }

  /** The k-th listed chunk is neither held nor listed before. */
  predicate Due(held: Table, refs: seq<Manifest.Ref>, k: nat)
    requires k < |refs|
  {
    refs[k].hash !in held && forall j :: 0 <= j < k ==> refs[j].hash != refs[k].hash
  }

  /** How much is fetched. */
  function WireBytes(net: Net, held: Table, refs: seq<Manifest.Ref>): nat {
    if refs == [] then 0
    else
      var n := |refs| - 1;
      WireBytes(net, held, refs[..n]) + if Due(held, refs, n) then |Sent(net, refs[n]).body| else 0
  }

  function FetchLimit(args: Args): nat {
    if args.maxTotal < MAX_TOTAL_FETCH then args.maxTotal else MAX_TOTAL_FETCH
  }

  /** What is due among the first `n` arrived and was accepted. */
  predicate ArrivedSoFar(c: ChunkStore.Primitives, net: Net, held: Table, refs: seq<Manifest.Ref>, n: nat)
    requires n <= |refs|
  {
    forall k :: 0 <= k < n && Due(held, refs, k) ==>
      net.chunk(refs[k].hash).Arrived? && ChunkStore.Acceptable(c, Sent(net, refs[k]))
  }

  /** Everything that is due arrives, verifies, and keeps the limit in all. */
  predicate Arrives(args: Args, c: ChunkStore.Primitives, net: Net, held: Table, refs: seq<Manifest.Ref>) {
    ArrivedSoFar(c, net, held, refs, |refs|) && WireBytes(net, held, refs) <= FetchLimit(args)
  }

  predicate Lists(refs: seq<Manifest.Ref>, h: Text) {
    exists k :: 0 <= k < |refs| && refs[k].hash == h
  }

  lemma ListsMore(refs: seq<Manifest.Ref>, n: nat, h: Text)
    requires n < |refs|
    ensures Lists(refs[..n + 1], h) <==> Lists(refs[..n], h) || refs[n].hash == h
  {
    if Lists(refs[..n], h) {
      var k :| 0 <= k < n && refs[..n][k].hash == h;
      assert refs[..n + 1][k].hash == h;
    }
    if Lists(refs[..n + 1], h) {
      var k :| 0 <= k < n + 1 && refs[..n + 1][k].hash == h;
      assert k < n ==> refs[..n][k].hash == h;
    }
    assert refs[..n + 1][n].hash == refs[n].hash;
  }

  /** Held rows stay, and every listed chunk is there, and no other. */
  lemma {:induction false} DeliveredKeys(net: Net, held: Table, refs: seq<Manifest.Ref>)
    ensures Keeps(held, Delivered(net, held, refs))
    ensures forall h :: h in Delivered(net, held, refs) <==> h in held || Lists(refs, h)
  {
    if refs != [] {
      var n := |refs| - 1;
      DeliveredKeys(net, held, refs[..n]);
      assert refs[..n + 1] == refs;
      forall h ensures Lists(refs, h) <==> Lists(refs[..n], h) || refs[n].hash == h {
        ListsMore(refs, n, h);
      }
    }
  }

  lemma DueIsNotDelivered(net: Net, held: Table, refs: seq<Manifest.Ref>, k: nat)
    requires k < |refs|
    ensures Due(held, refs, k) <==> refs[k].hash !in Delivered(net, held, refs[..k])
  {
    DeliveredKeys(net, held, refs[..k]);
    if Lists(refs[..k], refs[k].hash) {
      var j :| 0 <= j < k && refs[..k][j].hash == refs[k].hash;
      assert refs[j].hash == refs[k].hash;
    }
    if !Due(held, refs, k) && refs[k].hash !in held {
      var j :| 0 <= j < k && refs[j].hash == refs[k].hash;
      assert refs[..k][j].hash == refs[k].hash;
    }
  }

  /** A new chunk is held as it arrived. */
  lemma {:induction false} DeliveredAsSent(net: Net, held: Table, refs: seq<Manifest.Ref>, k: nat)
    requires k < |refs| && Due(held, refs, k)
    ensures refs[k].hash in Delivered(net, held, refs)
    ensures Delivered(net, held, refs)[refs[k].hash] == Sent(net, refs[k])
  {
    var n := |refs| - 1;
    if k < n {
      assert Due(held, refs[..n], k);
      DeliveredAsSent(net, held, refs[..n], k);
    } else {
      DueIsNotDelivered(net, held, refs, n);
    }
  }

  lemma DuePrefix(held: Table, refs: seq<Manifest.Ref>, n: nat, k: nat)
    requires k < n <= |refs|
    ensures Due(held, refs[..n], k) <==> Due(held, refs, k)
  {
  }

  lemma {:induction false} WireBytesGrow(net: Net, held: Table, refs: seq<Manifest.Ref>, n: nat)
    requires n <= |refs|
    ensures WireBytes(net, held, refs[..n]) <= WireBytes(net, held, refs)
  {
    if n == |refs| {
      assert refs[..n] == refs;
    } else {
      WireBytesGrow(net, held, refs[..|refs| - 1], n);
      assert refs[..|refs| - 1][..n] == refs[..n];
    }
  }

  /** One chunk further. */
  lemma OneMoreDue(net: Net, held: Table, refs: seq<Manifest.Ref>, k: nat)
    requires k < |refs|
    ensures WireBytes(net, held, refs[..k + 1]) ==
            WireBytes(net, held, refs[..k]) + if Due(held, refs, k) then |Sent(net, refs[k]).body| else 0
    ensures Delivered(net, held, refs[..k + 1]) ==
            if Due(held, refs, k) then Delivered(net, held, refs[..k])[refs[k].hash := Sent(net, refs[k])]
            else Delivered(net, held, refs[..k])
  {
    assert refs[..k + 1][..k] == refs[..k];
    DueIsNotDelivered(net, held, refs, k);
    DuePrefix(held, refs, k + 1, k);
  }

  lemma HasIsHeld(s: ChunkStore.Store, h: Text)
    ensures ChunkStore.HasChunk(s, h) <==> h in Held(s)
  {
    ChunkStore.InsertedAreIn(s.table, s.pending);
    if ChunkStore.Buffered(s.pending, h) {
      var i :| 0 <= i < |s.pending| && s.pending[i].hash == h;
      assert h in set j | 0 <= j < |s.pending| :: s.pending[j].hash;
    }
  }

  /** A put that succeeds adds the chunk to what is held; unrefused, it succeeds if the bytes are accepted. */
  lemma PutDelivers(c: ChunkStore.Primitives, s: ChunkStore.Store, chunk: ChunkStore.Chunk, fails: bool)
    requires !ChunkStore.HasChunk(s, chunk.hash)
    ensures !ChunkStore.PutThrows(c, s, chunk, fails) ==>
              Held(ChunkStore.Put(c, s, chunk, fails)) == Held(s)[chunk.hash := chunk]
    ensures ChunkStore.PutThrows(c, s, chunk, false) <==> !ChunkStore.Acceptable(c, chunk)
  {
    HasIsHeld(s, chunk.hash);
    var added := s.pending + [chunk];
    assert added[..|s.pending|] == s.pending;
    assert ChunkStore.InsertRows(s.table, added) == Held(s)[chunk.hash := chunk];
  }

  predicate AllPresent(s: ChunkStore.Store, refs: seq<Manifest.Ref>) {
    forall k :: 0 <= k < |refs| ==> ChunkStore.HasChunk(s, refs[k].hash)
  }

  /** One chunk that is not there: fetched within what is left of the limit, and put. */
  method FetchOne(net: Net, store: ChunkStore.SqliteCacheStore, ref: Manifest.Ref, left: nat, fails: bool)
      returns (ok: bool, bytes: nat)
    requires !ChunkStore.HasChunk(store.Value(), ref.hash)
    modifies store
    ensures store.row == old(store.row) && store.manifests == old(store.manifests)
    ensures ok ==>
              && net.chunk(ref.hash).Arrived? && ChunkStore.Acceptable(store.c, Sent(net, ref))
              && bytes == |Sent(net, ref).body| <= left
              && Held(store.Value()) == Held(old(store.Value()))[ref.hash := Sent(net, ref)]
    ensures !ok && !fails ==>
              || !net.chunk(ref.hash).Arrived? || !ChunkStore.Acceptable(store.c, Sent(net, ref))
              || |Sent(net, ref).body| > left
  {
    bytes := 0;
    var answer := net.chunk(ref.hash);
    if !answer.Arrived? || |answer.bytes| > ChunkStore.MAX_COMPRESSED || |answer.bytes| > left {
      return false, 0;
    }
    PutsAndReadsKeepTheRest(store.c, store.Value());
    PutDelivers(store.c, store.Value(), Sent(net, ref), fails);
    var threw := store.PutChunkCompressed(ref.hash, answer.bytes, ref.size, fails);
    return !threw, |answer.bytes|;
  }

  lemma DeliveredArePresent(net: Net, held: Table, refs: seq<Manifest.Ref>, s: ChunkStore.Store)
    requires Held(s) == Delivered(net, held, refs)
    ensures AllPresent(s, refs)
  {
    DeliveredKeys(net, held, refs);
    forall k | 0 <= k < |refs| ensures ChunkStore.HasChunk(s, refs[k].hash) {
      HasIsHeld(s, refs[k].hash);
      assert Lists(refs, refs[k].hash);
    }
  }

  /** What is not there yet is fetched and put, as long as the total stays within the limit. */
  method FetchMissing(args: Args, net: Net, store: ChunkStore.SqliteCacheStore, refs: seq<Manifest.Ref>,
                      refuses: nat -> bool)
      returns (ok: bool, total: nat)
    modifies store
    ensures store.row == old(store.row) && store.manifests == old(store.manifests)
    ensures ok ==> AllPresent(store.Value(), refs) && total <= args.maxTotal && total <= MAX_TOTAL_FETCH
    ensures ok ==> total == WireBytes(net, Held(old(store.Value())), refs)
                   && Held(store.Value()) == Delivered(net, Held(old(store.Value())), refs)
    ensures Never(refuses) ==> (ok <==> Arrives(args, store.c, net, Held(old(store.Value())), refs))
  {
    total := 0;
    var limit := if args.maxTotal < MAX_TOTAL_FETCH then args.maxTotal else MAX_TOTAL_FETCH;
    ghost var held := Held(store.Value());
    for k := 0 to |refs|
      invariant store.row == old(store.row) && store.manifests == old(store.manifests)
      invariant Held(store.Value()) == Delivered(net, held, refs[..k])
      invariant total == WireBytes(net, held, refs[..k]) <= limit
      invariant ArrivedSoFar(store.c, net, held, refs, k)
    {
      HasIsHeld(store.Value(), refs[k].hash);
      DueIsNotDelivered(net, held, refs, k);
      OneMoreDue(net, held, refs, k);
      WireBytesGrow(net, held, refs, k + 1);
      if !ChunkStore.HasChunk(store.Value(), refs[k].hash) {
        var fetched, bytes := FetchOne(net, store, refs[k], limit - total, refuses(k));
        if !fetched {
          return false, total;
        }
        total := total + bytes;
      }
    }
    assert refs[..|refs|] == refs;
    DeliveredArePresent(net, held, refs, store.Value());
    ok := true;
  }

  // ---------------------------------------------------------------------- the gates

  /** The network's pointer when it is well shaped, sequenced and signed. */
  function LatestPointer(args: Args, c: ChunkStore.Primitives, net: Net): Option<Floor.Pointer> {
    if !net.latest.Arrived? || |net.latest.bytes| > MAX_POINTER_BYTES || c.parse(net.latest.bytes).None? then None
    else
      var v := c.parse(net.latest.bytes).value;
      var p := PointerOf(v);
      if p.Some? && Floor.Sequenced(p.value) && Authentic(args, v, p.value) then p else None
  }

  /** In time and expected, beside a served pointer that is expected as well. */
  predicate Timely(args: Args, row: Floor.Row, p: Floor.Pointer) {
    && Expired(args, p) == Some(false)
    && Expected(args, p)
    && (Floor.Served(row).Some? ==> Expected(args, Floor.Served(row).value))
  }

  /** The identity a caller expects: a value, an explicit null, or anything. */
  predicate Fits(expected: Field<Text>, actual: Field<Text>) {
    match expected
    case Absent => true
    case Null => !actual.Value?
    case Value(v) => actual == Value(v)
  }

  /** A pointer is timely exactly if its deadline, if it has one, is still to come by a clock that can be read,
      and it and the served one carry the identity the caller expects. */
  lemma TimelyExactly(args: Args, row: Floor.Row, p: Floor.Pointer)
    ensures Timely(args, row, p) <==>
              && (p.expiresAt.Value? ==> args.now.Some? && args.now.value < p.expiresAt.v as real)
              && Fits(args.bundleId, p.bundleId) && Fits(args.channel, p.channel)
              && (Floor.Served(row).Some? ==>
                    && Fits(args.bundleId, Floor.Served(row).value.bundleId)
                    && Fits(args.channel, Floor.Served(row).value.channel))
  {
  }

  /** Provably fresher than the served pointer. */
  predicate Fresher(row: Floor.Row, p: Floor.Pointer)
    requires Floor.Sequenced(p)
  {
    Floor.Served(row).Some? ==> Release.DowngradeReason(p, Floor.Served(row).value).None?
  }

  /** Signed, in time, expected, and fresher than the served one. */
  predicate PointerPasses(args: Args, c: ChunkStore.Primitives, net: Net, row: Floor.Row, p: Floor.Pointer) {
    LatestPointer(args, c, net) == Some(p) && Floor.Sequenced(p) && Timely(args, row, p) && Fresher(row, p)
  }

  /** The files of manifest bytes that hash to what the pointer signed and meet every rule. */
  function ManifestFiles(c: ChunkStore.Primitives, bytes: Bytes, p: Floor.Pointer): Option<seq<Manifest.File>> {
    if c.sha(bytes) != p.manifestHash || c.parse(bytes).None? then None
    else Manifest.Accepted(c.parse(bytes).value, p)
  }

  /** The same for the manifest the network sends. */
  function NetworkFiles(c: ChunkStore.Primitives, net: Net, p: Floor.Pointer): Option<seq<Manifest.File>> {
    var answer := net.manifest(p.manifestHash);
    if !answer.Arrived? || |answer.bytes| > ChunkStore.MAX_MANIFEST then None
    else ManifestFiles(c, answer.bytes, p)
  }

  /** The files a manifest the store has under its own hash gives to choose from, and those chosen. */
  function CachedFiles(args: Args, c: ChunkStore.Primitives, s: ChunkStore.Store,
                       p: Floor.Pointer): Option<seq<Manifest.File>> {
    if p.manifestHash !in s.manifests || |s.manifests[p.manifestHash]| > ChunkStore.MAX_MANIFEST then None
    else
      match ManifestFiles(c, s.manifests[p.manifestHash], p)
      case None => None
      case Some(all) => Selected(all, args.wanted)
  }

  /** The pointer that may be served now, again under the current trust root: `stored` is the object the
      row keeps of it. */
  predicate CachePasses(args: Args, c: ChunkStore.Primitives, s: ChunkStore.Store,
                        stored: Json, p: Floor.Pointer, expired: bool) {
    && Floor.Served(s.row) == Some(p) && PointerOf(stored) == Some(p)
    && Authentic(args, stored, p) && Expected(args, p) && Expired(args, p) == Some(expired)
    && CachedFiles(args, c, s, p).Some?
    && FilesRebuilt(c, s.table, CachedFiles(args, c, s, p).value)
  }

  /** The object in the row is the one its pointer was read from. */
  predicate IsStored(stored: Json, row: Floor.Row) {
    Floor.Served(row).Some? ==> PointerOf(stored) == Floor.Served(row)
  }

  method FetchPointer(args: Args, c: ChunkStore.Primitives, net: Net) returns (r: Option<Floor.Pointer>)
    ensures r == LatestPointer(args, c, net)
    ensures r.Some? ==> Floor.Sequenced(r.value) && Floor.Storable(r.value)
  {
    if !net.latest.Arrived? || |net.latest.bytes| > MAX_POINTER_BYTES {
      return None;
    }
    var v := c.parse(net.latest.bytes);
    if v.None? {
      return None;
    }
    r := PointerOf(v.value);
    if r.None? || !Floor.Sequenced(r.value) || !Authentic(args, v.value, r.value) {
      return None;
    }
    ReadsAreStorable(FieldsOf(v.value));
  }

  method ReadManifest(c: ChunkStore.Primitives, raw: Bytes, p: Floor.Pointer)
      returns (files: Option<seq<Manifest.File>>)
    ensures files == ManifestFiles(c, raw, p)
    ensures files.Some? ==> Manifest.ChunksFill(files.value)
  {
    if c.sha(raw) != p.manifestHash {
      return None;
    }
    var v := c.parse(raw);
    if v.None? {
      return None;
    }
    files := Manifest.AssertManifest(v.value, p);
  }

  lemma SelectedChunksFill(files: seq<Manifest.File>, wanted: Option<seq<Text>>)
    requires Manifest.ChunksFill(files) && Selected(files, wanted).Some?
    ensures Manifest.ChunksFill(Selected(files, wanted).value)
  {
    var chosen := Selected(files, wanted).value;
    forall k | 0 <= k < |chosen| ensures Manifest.TotalSize(chosen[k].chunks) == chosen[k].size {
      assert chosen[k] in chosen && chosen[k] in files;
    }
  }

  /** The files to rebuild, from a manifest as the store returns it. */
  method ReadCachedFiles(args: Args, store: ChunkStore.SqliteCacheStore, p: Floor.Pointer)
      returns (files: Option<seq<Manifest.File>>)
    modifies store
    ensures store.row == old(store.row)
    ensures files == CachedFiles(args, store.c, old(store.Value()), p)
    ensures files.Some? ==> store.Value() == old(store.Value()) && Manifest.ChunksFill(files.value)
  {
    var raw := store.GetManifestBytes(p.manifestHash);
    if raw.Threw? {
      return None;
    }
    var all := ReadManifest(store.c, raw.value, p);
    if all.None? {
      return None;
    }
    files := Selected(all.value, args.wanted);
    if files.Some? {
      SelectedChunksFill(all.value, args.wanted);
    }
  }

  lemma SameManifestsSameFiles(args: Args, c: ChunkStore.Primitives, s: ChunkStore.Store,
                               t: ChunkStore.Store, p: Floor.Pointer)
    requires s.manifests == t.manifests
    ensures CachedFiles(args, c, s, p) == CachedFiles(args, c, t, p)
  {
  }

  /** The store with its buffer in the table. */
  function Flushed(s: ChunkStore.Store): ChunkStore.Store {
    s.(table := Held(s), pending := [], pendingBytes := 0)
  }

  method SyncFromCache(args: Args, store: ChunkStore.SqliteCacheStore, stored: Json, refuses: (nat, nat) -> bool)
      returns (r: Outcome)
    requires IsStored(stored, store.row)
    modifies store
    ensures store.row == old(store.row)
    ensures r.Cached? || r == Threw(NothingCached)
    ensures r.Cached? ==> CachePasses(args, store.c, store.Value(), stored, r.pointer, r.expired)
    ensures NeverRead(refuses) ==>
              forall p, expired :: r == Cached(p, expired) <==>
                                   CachePasses(args, store.c, Flushed(old(store.Value())), stored, p, expired)
  {
    var active := Floor.Served(store.row);
    if active.None? {
      return Threw(NothingCached);
    }
    var p := active.value;
    var expired := Expired(args, p);
    if !Authentic(args, stored, p) || !Expected(args, p) || expired.None? {
      return Threw(NothingCached);
    }
    var files := ReadCachedFiles(args, store, p);
    if files.None? {
      return Threw(NothingCached);
    }
    ghost var before := store.Value();
    SameManifestsSameFiles(args, store.c, before, Flushed(before), p);
    var verified := VerifyReassembly(store, files.value, refuses);
    if !verified {
      return Threw(NothingCached);
    }
    SameManifestsSameFiles(args, store.c, before, store.Value(), p);
    return Cached(p, expired.value);
  }

  function Hashes(files: seq<Manifest.File>): seq<Text> {
    var refs := Manifest.AllRefs(files);
    seq(|refs|, k requires 0 <= k < |refs| => refs[k].hash)
  }

  /** What a committed promotion leaves: the row, the chunks in the table, and the manifest. */
  predicate Committed(s: ChunkStore.Store, before: Floor.Row, p: Floor.Pointer, net: Net, files: seq<Manifest.File>) {
    && Floor.Admits(before, p)
    && Floor.WriteRow(before, Floor.Install(before, p)) == Some(s.row)
    && (forall k :: 0 <= k < |Hashes(files)| ==> Hashes(files)[k] in s.table)
    && Kept(s, net, p)
  }

  /** The manifest as it arrived. */
  predicate Kept(s: ChunkStore.Store, net: Net, p: Floor.Pointer) {
    p.manifestHash in s.manifests && net.manifest(p.manifestHash) == Arrived(s.manifests[p.manifestHash])
  }

  /** Everything a release needs beyond its signature and its manifest: its chunks arrive unless they are held,
      they make up its files, and the floor admits it. */
  predicate Deliverable(args: Args, c: ChunkStore.Primitives, net: Net, s: ChunkStore.Store, p: Floor.Pointer,
                        files: seq<Manifest.File>) {
    var refs := Manifest.AllRefs(files);
    && Arrives(args, c, net, Held(s), refs)
    && FilesRebuilt(c, Delivered(net, Held(s), refs), files)
    && Floor.Admits(s.row, p)
  }

  /** The manifest from the network, checked and then stored; an empty one is not stored. */
  method FetchManifest(net: Net, store: ChunkStore.SqliteCacheStore, p: Floor.Pointer, fails: bool)
      returns (files: Option<seq<Manifest.File>>, kept: bool)
    modifies store`manifests
    ensures files == NetworkFiles(store.c, net, p)
    ensures files.Some? ==> Manifest.ChunksFill(files.value)
    ensures files.Some? ==> (kept <==> !fails && net.manifest(p.manifestHash).bytes != [])
    ensures kept ==> files.Some? && Kept(store.Value(), net, p)
  {
    var answer := net.manifest(p.manifestHash);
    if !answer.Arrived? || |answer.bytes| > ChunkStore.MAX_MANIFEST {
      return None, false;
    }
    files := ReadManifest(store.c, answer.bytes, p);
    if files.None? {
      return None, false;
    }
    var threw := store.PutManifestBytes(answer.bytes, fails);
    kept := !threw;
  }

  /** From an accepted pointer to the promotion; any failure leaves the row alone. */
  method FetchAndPromote(args: Args, net: Net, store: ChunkStore.SqliteCacheStore, p: Floor.Pointer, disk: Disk)
      returns (r: Outcome)
    requires Floor.Sound(store.row)
    modifies store
    ensures Quiet(disk) ==>
              forall files :: r == Promoted(p, files) <==>
                && NetworkFiles(store.c, net, p).Some? && net.manifest(p.manifestHash).bytes != []
                && Selected(NetworkFiles(store.c, net, p).value, args.wanted) == Some(files)
                && Deliverable(args, store.c, net, old(store.Value()), p, files)
    ensures !disk.manifest && NetworkFiles(store.c, net, p).Some? && net.manifest(p.manifestHash).bytes != [] ==>
              (r == Threw(NotListed) <==> Selected(NetworkFiles(store.c, net, p).value, args.wanted).None?)
    ensures r.Promoted? || r == Threw(ManifestRefused) || r == Threw(NotListed) || r == Threw(Incomplete)
    ensures r == Threw(ManifestRefused) <==> NetworkFiles(store.c, net, p).None?
    ensures r == Threw(NotListed) ==>
              NetworkFiles(store.c, net, p).Some? && Selected(NetworkFiles(store.c, net, p).value, args.wanted).None?
              && Kept(store.Value(), net, p)
    ensures r.Promoted? ==>
              r.pointer == p && NetworkFiles(store.c, net, p).Some?
              && Selected(NetworkFiles(store.c, net, p).value, args.wanted) == Some(r.files)
              && FilesRebuilt(store.c, store.table, r.files)
              && Committed(store.Value(), old(store.row), p, net, r.files)
    ensures !r.Promoted? ==> store.row == old(store.row)
  {
    var all, kept := FetchManifest(net, store, p, disk.manifest);
    if all.None? {
      return Threw(ManifestRefused);
    }
    if !kept {
      return Threw(Incomplete);
    }
    var files := Selected(all.value, args.wanted);
    if files.None? {
      return Threw(NotListed);
    }
    SelectedChunksFill(all.value, args.wanted);
    r := Transfer(args, net, store, p, files.value, disk);
  }

  /** The transfers, the rebuild and the promotion. */
  method Transfer(args: Args, net: Net, store: ChunkStore.SqliteCacheStore, p: Floor.Pointer, files: seq<Manifest.File>,
                  disk: Disk)
      returns (r: Outcome)
    requires Floor.Sound(store.row) && Manifest.ChunksFill(files)
    requires Kept(store.Value(), net, p)
    modifies store
    ensures r == Promoted(p, files) || r == Threw(Incomplete)
    ensures Quiet(disk) ==> (r.Promoted? <==> Deliverable(args, store.c, net, old(store.Value()), p, files))
    ensures r.Promoted? ==>
              FilesRebuilt(store.c, store.table, files) && Committed(store.Value(), old(store.row), p, net, files)
    ensures !r.Promoted? ==> store.row == old(store.row)
  {
    ghost var held := Held(store.Value());
    var ok, total := FetchMissing(args, net, store, Manifest.AllRefs(files), disk.put);
    if !ok {
      return Threw(Incomplete);
    }
    ok := VerifyReassembly(store, files, disk.read);
    if !ok {
      return Threw(Incomplete);
    }
    ghost var before := store.Value();
    HashesAreHeld(net, held, files, before);
    PromotionSucceeds(before, p, Hashes(files));
    var threw := store.PromotePointer(p, Some(Hashes(files)), disk.promotion);
    if threw {
      return Threw(Incomplete);
    }
    PromotedRow(before, p, Hashes(files), disk.promotion);
    KeptFiles(store.c, before.table, store.table, files);
    return Promoted(p, files);
  }

  lemma HashesAreHeld(net: Net, held: Table, files: seq<Manifest.File>, s: ChunkStore.Store)
    requires Held(s) == Delivered(net, held, Manifest.AllRefs(files))
    ensures forall k :: 0 <= k < |Hashes(files)| ==> Hashes(files)[k] in Held(s)
  {
    var refs := Manifest.AllRefs(files);
    DeliveredKeys(net, held, refs);
    forall k | 0 <= k < |Hashes(files)| ensures Hashes(files)[k] in Held(s) {
      assert Lists(refs, refs[k].hash);
    }
  }

  /** With every chunk held, an unrefused promotion commits exactly if the floor admits the pointer. */
  lemma PromotionSucceeds(s: ChunkStore.Store, p: Floor.Pointer, hashes: seq<Text>)
    requires Floor.Sound(s.row) && forall k :: 0 <= k < |hashes| ==> hashes[k] in Held(s)
    ensures ChunkStore.PromotionCommits(s, p, Some(hashes), false) <==> Floor.Admits(s.row, p)
  {
    Floor.TriggerNeverFires(s.row, Floor.Promote(p, true));
    StoreAgreement.PresentMeansAll(Held(s), ChunkStore.WantedSet(Some(hashes)));
  }

  lemma PromotedRow(s: ChunkStore.Store, p: Floor.Pointer, hashes: seq<Text>, fails: bool)
    requires ChunkStore.PromotionCommits(s, p, Some(hashes), fails)
    ensures var t := ChunkStore.Promote(s, p, Some(hashes), fails);
            Floor.Admits(s.row, p) && Floor.WriteRow(s.row, Floor.Install(s.row, p)) == Some(t.row)
            && t.manifests == s.manifests && Keeps(s.table, t.table)
            && forall k :: 0 <= k < |hashes| ==> hashes[k] in t.table
  {
    var t, wanted := ChunkStore.Promote(s, p, Some(hashes), fails), ChunkStore.WantedSet(Some(hashes));
    ChunkStore.InsertedAreIn(s.table, s.pending);
    SubsetOfSameSize(t.table.Keys * wanted, wanted);
    forall k | 0 <= k < |hashes| ensures hashes[k] in t.table {
      assert hashes[k] in wanted;
    }
  }

  lemma SubsetOfSameSize(a: set<Text>, b: set<Text>)
    requires a <= b && |a| == |b|
    ensures a == b
  {
    assert |b - a| == |b| - |a|;
  }

  /** A committed promotion makes the pointer the served one. */
  lemma PromotedIsServed(row: Floor.Row, p: Floor.Pointer)
    requires Floor.Sound(row) && Floor.Storable(p) && Floor.Sequenced(p) && Floor.Admits(row, p)
    requires Floor.WriteRow(row, Floor.Install(row, p)).Some?
    ensures Floor.Served(Floor.WriteRow(row, Floor.Install(row, p)).value) == Some(p)
    ensures Floor.Sound(Floor.WriteRow(row, Floor.Install(row, p)).value)
  {
    Floor.NextIsSound(row, Floor.Step(Floor.Promote(p, true), true));
  }

  /** Everything a promotion stands on, and what it leaves: the row and the files in the table. */
  ghost predicate PromotionStands(args: Args, c: ChunkStore.Primitives, net: Net, row: Floor.Row, after: Floor.Row,
                                  table: Table, p: Floor.Pointer, files: seq<Manifest.File>) {
    && PointerPasses(args, c, net, row, p)
    && NetworkFiles(c, net, p).Some? && Selected(NetworkFiles(c, net, p).value, args.wanted) == Some(files)
    && FilesRebuilt(c, table, files)
    && Floor.Admits(row, p) && Floor.WriteRow(row, Floor.Install(row, p)) == Some(after)
    && Floor.Sound(row) && Floor.Sound(after) && Floor.Served(after) == Some(p)
  }

  /** All that a promotion takes when storage refuses nothing. */
  predicate Promotable(args: Args, c: ChunkStore.Primitives, net: Net, s: ChunkStore.Store, p: Floor.Pointer,
                       files: seq<Manifest.File>) {
    && PointerPasses(args, c, net, s.row, p)
    && NetworkFiles(c, net, p).Some? && net.manifest(p.manifestHash).bytes != []
    && Selected(NetworkFiles(c, net, p).value, args.wanted) == Some(files)
    && Deliverable(args, c, net, s, p, files)
  }

  lemma OnlyThePassingOne(args: Args, c: ChunkStore.Primitives, net: Net, s: ChunkStore.Store, p: Floor.Pointer)
    requires PointerPasses(args, c, net, s.row, p)
    ensures forall q, files :: Promotable(args, c, net, s, q, files) <==>
              && q == p && NetworkFiles(c, net, p).Some? && net.manifest(p.manifestHash).bytes != []
              && Selected(NetworkFiles(c, net, p).value, args.wanted) == Some(files)
              && Deliverable(args, c, net, s, p, files)
  {
  }

  datatype Verdict = Go(pointer: Floor.Pointer) | Stop(why: Refusal)

  /** What the checks of the pointer decide. */
  function PointerGate(args: Args, c: ChunkStore.Primitives, net: Net, row: Floor.Row): (r: Verdict)
    ensures r.Go? <==> exists p :: PointerPasses(args, c, net, row, p)
    ensures r.Go? ==> PointerPasses(args, c, net, row, r.pointer)
  {
    var latest := LatestPointer(args, c, net);
    if latest.None? || !Floor.Sequenced(latest.value) || !Timely(args, row, latest.value) then
      assert forall p :: PointerPasses(args, c, net, row, p) ==> latest == Some(p);
      Stop(PointerRefused)
    else if !Fresher(row, latest.value) then
      assert forall p :: PointerPasses(args, c, net, row, p) ==> latest == Some(p);
      Stop(Rollback(Release.DowngradeReason(latest.value, Floor.Served(row).value).value))
    else
      assert PointerPasses(args, c, net, row, latest.value);
      Go(latest.value)
  }

  /** The outcome of all gates before anything is transferred. */
  function Gate(args: Args, c: ChunkStore.Primitives, net: Net, row: Floor.Row): Outcome {
    if !ValidWanted(args.wanted) then Threw(BadArguments)
    else
      match PointerGate(args, c, net, row)
      case Stop(why) => Threw(why)
      case Go(p) =>
        match NetworkFiles(c, net, p)
        case None => Threw(ManifestRefused)
        case Some(all) =>
          match Selected(all, args.wanted)
          case None => Threw(NotListed)
          case Some(files) => Promoted(p, files)
  }

  /** The gates that the manifest is stored after: a refusal there may be hidden by a failure to store it. */
  predicate Decided(gate: Outcome) {
    gate.Threw? && !gate.why.NotListed?
  }

  method CheckPointer(args: Args, c: ChunkStore.Primitives, net: Net, row: Floor.Row) returns (r: Verdict)
    ensures r == PointerGate(args, c, net, row)
    ensures r.Go? ==> Floor.Storable(r.pointer)
  {
    var latest := FetchPointer(args, c, net);
    if latest.None? {
      return Stop(PointerRefused);
    }
    var p := latest.value;
    if Expired(args, p) != Some(false) || !Expected(args, p) {
      return Stop(PointerRefused);
    }
    var active := Floor.Served(row);
    if active.Some? {
      if !Expected(args, active.value) {
        return Stop(PointerRefused);
      }
      var refusal := Release.DowngradeReason(p, active.value);
      if refusal.Some? {
        return Stop(Rollback(refusal.value));
      }
    }
    return Go(p);
  }

  /**
   * The whole sync. A promotion stands on a signed, unexpired, expected and provably fresh pointer, on
   * manifest bytes that hash to it, and on files that the store then has, chunk by chunk; afterwards
   * that pointer is the served one and its manifest is kept. While the network answers, a sync is
   * refused for the gates' own reason exactly when they refuse. When storage refuses nothing, a release is
   * promoted exactly if it passes them, its missing chunks arrive within the limit, they make up its
   * files, and the floor admits it; and with the network down the served release is given from the cache,
   * expired or not, exactly if it passes and its files are held. Nothing else touches the row.
   */
  method Sync(args: Args, net: Net, store: ChunkStore.SqliteCacheStore, stored: Json, disk: Disk) returns (r: Outcome)
    requires Floor.Sound(store.row) && IsStored(stored, store.row)
    modifies store
    ensures Floor.Sound(store.row)
    ensures r.Promoted? ==>
              PromotionStands(args, store.c, net, old(store.row), store.row, store.table, r.pointer, r.files)
              && Committed(store.Value(), old(store.row), r.pointer, net, r.files)
    ensures !r.Promoted? ==> store.row == old(store.row)
    ensures r.Cached? ==> CachePasses(args, store.c, store.Value(), stored, r.pointer, r.expired)
    ensures !net.latest.Unreachable? && Decided(Gate(args, store.c, net, old(store.row))) ==>
              r == Gate(args, store.c, net, old(store.row))
    ensures !net.latest.Unreachable? && !Decided(Gate(args, store.c, net, old(store.row))) ==>
              r == Gate(args, store.c, net, old(store.row)) || r == Threw(Incomplete) || r.Cached?
    ensures Quiet(disk) && ValidWanted(args.wanted) && !net.latest.Unreachable? ==>
              !r.Cached? && forall p, files :: r == Promoted(p, files) <==>
                               Promotable(args, store.c, net, old(store.Value()), p, files)
    ensures Quiet(disk) && ValidWanted(args.wanted) && net.latest.Unreachable? ==>
              forall p, expired :: r == Cached(p, expired) <==>
                                   CachePasses(args, store.c, Flushed(old(store.Value())), stored, p, expired)
  {
    if !ValidWanted(args.wanted) {
      return Threw(BadArguments);
    }
    if net.latest.Unreachable? {
      r := SyncFromCache(args, store, stored, disk.cachedRead);
      return;
    }
    var verdict := CheckPointer(args, store.c, net, store.row);
    if verdict.Stop? {
      return Threw(verdict.why);
    }
    var p := verdict.pointer;
    OnlyThePassingOne(args, store.c, net, store.Value(), p);
    r := FetchAndPromote(args, net, store, p, disk);
    if r.Promoted? {
      PromotedIsServed(old(store.row), p);
    } else if r == Threw(Incomplete) {
      if disk.quota && Floor.Served(store.row).Some? {
        r := SyncFromCache(args, store, stored, disk.cachedRead);
        if !r.Cached? {
          r := Threw(Incomplete);
        }
      }
    }
  }

  /** The trust root that accepted a pointer from the network accepts it again as storage gives it back,
      with whatever further properties it arrived with. */
  lemma PromotedPointersStayAuthentic(args: Args, v: Json, stored: Json, p: Floor.Pointer)
    requires Valid(v) && Valid(stored) && Equiv(v, stored) && PointerOf(v) == Some(p)
    ensures PointerOf(stored) == Some(p)
    ensures Authentic(args, stored, p) <==> Authentic(args, v, p)
  {
    assert v.JObj?;
    StorageKeepsThePreimage(v, stored);
  }

  /** One sync's promotion: the row before it and after it, and the table it left. */
  datatype Promotion = Promotion(
    args: Args, c: ChunkStore.Primitives, net: Net, before: Floor.Row, after: Floor.Row, table: Table,
    pointer: Floor.Pointer, files: seq<Manifest.File>)

  ghost predicate Stands(x: Promotion) {
    PromotionStands(x.args, x.c, x.net, x.before, x.after, x.table, x.pointer, x.files)
  }

  /** The k-th promotion finds the row the one before it left, after any transactions in between. */
  ghost predicate Follows(syncs: seq<Promotion>, between: seq<seq<Floor.Step>>, k: int)
    requires 0 < k < |syncs| == |between|
  {
    Stands(syncs[k - 1]) && Stands(syncs[k]) && syncs[k].before == Floor.After(syncs[k - 1].after, between[k])
  }

  ghost predicate Successive(syncs: seq<Promotion>, between: seq<seq<Floor.Step>>) {
    |between| == |syncs| && forall k :: 0 < k < |syncs| ==> Follows(syncs, between, k)
  }

  lemma PromotionSitsAtTheFloor(x: Promotion)
    requires Stands(x)
    ensures Floor.Sequenced(x.pointer) && Floor.SequenceOf(x.pointer) == x.after.floor >= x.before.floor
    ensures x.after.identity == Some(Floor.IdentityOf(x.pointer))
    ensures x.after.floor == x.before.floor >= 0 ==> x.before.identity == x.after.identity
  {
  }

  lemma StepsBetween(row: Floor.Row, steps: seq<Floor.Step>)
    requires Floor.Sound(row)
    ensures row.floor <= Floor.After(row, steps).floor
    ensures row.floor == Floor.After(row, steps).floor >= 0 ==>
              Floor.After(row, steps).identity == row.identity || Floor.After(row, steps).identity == None
  {
    Floor.RunFacts(row, steps, 0, |steps|);
    assert steps[..|steps|] == steps;
  }

  /** The later of two promotions is at least as high, and the same release when it is level. */
  predicate NotBehind(older: Floor.Pointer, newer: Floor.Pointer) {
    && Floor.SequenceOf(older) <= Floor.SequenceOf(newer)
    && (Floor.SequenceOf(older) == Floor.SequenceOf(newer) ==> Floor.IdentityOf(older) == Floor.IdentityOf(newer))
  }

  lemma NextIsNotBehind(x: Promotion, y: Promotion, steps: seq<Floor.Step>)
    requires Stands(x) && Stands(y) && y.before == Floor.After(x.after, steps)
    ensures NotBehind(x.pointer, y.pointer)
  {
    PromotionSitsAtTheFloor(x);
    PromotionSitsAtTheFloor(y);
    StepsBetween(x.after, steps);
  }

  predicate Climbs(releases: seq<Floor.Pointer>, k: int)
    requires 0 < k < |releases|
  {
    NotBehind(releases[k - 1], releases[k])
  }

  lemma {:induction false} ClimbsAllTheWay(releases: seq<Floor.Pointer>, i: nat, j: nat)
    requires i < j < |releases| && forall k :: 0 < k < |releases| ==> Climbs(releases, k)
    ensures NotBehind(releases[i], releases[j])
    decreases j - i
  {
    assert Climbs(releases, j);
    if i < j - 1 {
      ClimbsAllTheWay(releases, i, j - 1);
    }
  }

  function Pointers(syncs: seq<Promotion>): (releases: seq<Floor.Pointer>)
    ensures |releases| == |syncs| && forall k :: 0 <= k < |syncs| ==> releases[k] == syncs[k].pointer
  {
    seq(|syncs|, k requires 0 <= k < |syncs| => syncs[k].pointer)
  }

  /** No promotion goes back in sequence, and at an equal one it is the same release, whatever is cleared,
      merged or pruned between them. */
  lemma SyncsNeverGoBack(syncs: seq<Promotion>, between: seq<seq<Floor.Step>>, i: nat, j: nat)
    requires Successive(syncs, between) && i < j < |syncs|
    ensures NotBehind(syncs[i].pointer, syncs[j].pointer)
  {
    var releases := Pointers(syncs);
    forall k | 0 < k < |syncs| ensures Climbs(releases, k) {
      assert Follows(syncs, between, k);
      NextIsNotBehind(syncs[k - 1], syncs[k], between[k]);
    }
    ClimbsAllTheWay(releases, i, j);
  }

  predicate Linked(older: Floor.Pointer, newer: Floor.Pointer) {
    Floor.Sequenced(newer) && Release.DowngradeReason(newer, older).None?
  }

  /** Each promotion finds the one before it still served. */
  ghost predicate StillServed(syncs: seq<Promotion>) {
    && (forall k :: 0 <= k < |syncs| ==> Stands(syncs[k]))
    && forall k :: 0 < k < |syncs| ==> Floor.Served(syncs[k].before) == Some(syncs[k - 1].pointer)
  }

  lemma NextPromotionIsLinked(x: Promotion, y: Promotion)
    requires Stands(y) && Floor.Served(y.before) == Some(x.pointer)
    ensures Linked(x.pointer, y.pointer)
  {
    assert PointerPasses(y.args, y.c, y.net, y.before, y.pointer);
  }

  /** Pointers promoted over one another, by any keys and from any servers, form a chain of releases. */
  lemma PromotionsFormAChain(syncs: seq<Promotion>)
    requires StillServed(syncs)
    ensures Release.Chain(Pointers(syncs))
  {
    var releases := Pointers(syncs);
    forall k | 0 < k < |releases|
      ensures Floor.Sequenced(releases[k]) && Release.DowngradeReason(releases[k], releases[k - 1]).None?
    {
      NextPromotionIsLinked(syncs[k - 1], syncs[k]);
    }
  }

  /** So between comparable versions no promotion goes back in version either. */
  lemma VersionsNeverGoBack(syncs: seq<Promotion>, i: nat, j: nat)
    requires StillServed(syncs) && i < j < |syncs|
    requires forall k :: i < k < j ==> Release.ParseRelease(syncs[k].pointer.version).Some?
    ensures !Release.VersionOlder(syncs[j].pointer, syncs[i].pointer)
  {
    PromotionsFormAChain(syncs);
    Release.ChainsNeverGoBackInVersion(Pointers(syncs), i, j);
  }
}
