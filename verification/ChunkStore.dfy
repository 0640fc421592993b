/**
 * The content-addressed store (src/engine/sqliteStore.ts): verified chunks in an ingest buffer and
 * a table, manifests, and the floor row. Each operation is a function on the store's value, which
 * the class below computes in place; `fails` says that the operation's transaction is refused.
 */
module ChunkStore {
  import opened Prelude
  import Canonical
  import Floor
  import Zstd

  /** What the store is built on: the digest, the frame walk, the streaming decoder, and JSON.parse
      of UTF-8 bytes. Everything here holds whatever these functions are. */
  datatype Primitives = Primitives(
    sha: Bytes -> Text, declared: Bytes -> Option<nat>, inflate: Bytes -> Option<Bytes>,
    parse: Bytes -> Option<Canonical.Json>)

  /** The library's own: sizes come from the frame walk. */
  function OnZstd(sha: Bytes -> Text, inflate: Bytes -> Option<Bytes>,
                  parse: Bytes -> Option<Canonical.Json>): Primitives {
    Primitives(sha, (b: Bytes) => Zstd.DeclaredContentSize(b), inflate, parse)
  }

  const MAX_COMPRESSED: nat := 2 * 1024 * 1024
  const MAX_DECOMPRESSED: nat := 8 * 1024 * 1024
  const MAX_MANIFEST: nat := 1024 * 1024
  const FLUSH_CHUNKS: nat := 64
  const FLUSH_BYTES: nat := 8 * 1024 * 1024

  datatype Chunk = Chunk(hash: Text, size: int, body: Bytes)
  datatype MigrationState = NotStarted | Copied | Done

  datatype Store = Store(
    pending: seq<Chunk>, pendingBytes: nat,
    table: map<Text, Chunk>, manifests: map<Text, Bytes>,
    row: Floor.Row, migration: MigrationState)

  /** decompressAndVerify: the plaintext, or None for an IntegrityError. */
  function Verify(c: Primitives, hash: Text, body: Bytes, size: int): Option<Bytes> {
    if !(0 <= size <= MAX_DECOMPRESSED) then None
    else if c.declared(body) != Some(size) then None
    else
      match c.inflate(body)
      case None => None
      case Some(plain) => if |plain| == size && c.sha(plain) == hash then Some(plain) else None
  }

  predicate Acceptable(c: Primitives, chunk: Chunk) {
    0 < |chunk.body| <= MAX_COMPRESSED && Verify(c, chunk.hash, chunk.body, chunk.size).Some?
  }

  predicate Buffered(pending: seq<Chunk>, hash: Text) {
    exists i :: 0 <= i < |pending| && pending[i].hash == hash
  }

  function BodyBytes(chunks: seq<Chunk>): nat {
    if chunks == [] then 0 else BodyBytes(chunks[..|chunks| - 1]) + |chunks[|chunks| - 1].body|
  }

  /** INSERT OR IGNORE, row by row. */
  function InsertRows(table: map<Text, Chunk>, rows: seq<Chunk>): map<Text, Chunk> {
    if rows == [] then table
    else
      var before := InsertRows(table, rows[..|rows| - 1]);
      var last := rows[|rows| - 1];
      if last.hash in before then before else before[last.hash := last]
  }

  // ---------------------------------------------------------------- operations

  function HasChunk(s: Store, hash: Text): bool {
    Buffered(s.pending, hash) || hash in s.table
  }

  function Flush(s: Store, fails: bool): Store {
    if s.pending == [] || fails then s
    else s.(table := InsertRows(s.table, s.pending), pending := [], pendingBytes := 0)
  }

  /** Whether flushing throws. */
  predicate FlushThrows(s: Store, fails: bool) {
    s.pending != [] && fails
  }

  predicate FlushDue(s: Store) {
    |s.pending| >= FLUSH_CHUNKS || s.pendingBytes >= FLUSH_BYTES
  }

  function Put(c: Primitives, s: Store, chunk: Chunk, fails: bool): Store {
    if !Acceptable(c, chunk) || Buffered(s.pending, chunk.hash) then s
    else
      var added := s.(pending := s.pending + [chunk], pendingBytes := s.pendingBytes + |chunk.body|);
      if FlushDue(added) then Flush(added, fails) else added
  }

  /** Whether a put throws: the bytes are refused, or the flush it makes due is. */
  predicate PutThrows(c: Primitives, s: Store, chunk: Chunk, fails: bool) {
    || !Acceptable(c, chunk)
    || (&& fails && !Buffered(s.pending, chunk.hash)
        && FlushDue(s.(pending := s.pending + [chunk], pendingBytes := s.pendingBytes + |chunk.body|)))
  }

  datatype Outcome<+T> = Ok(value: T) | Threw

  function Read(c: Primitives, s: Store, hash: Text, expectedSize: int, fails: bool): (r: (Store, Outcome<Bytes>)) {
    if FlushThrows(s, fails) then (s, Threw)
    else
      var f := Flush(s, fails);
      if hash !in f.table then (f, Threw)
      else
        var body := f.table[hash].body;
        var plain := if 0 < |body| <= MAX_COMPRESSED then Verify(c, hash, body, expectedSize) else None;
        match plain
        case Some(p) => (f, Ok(p))
        case None => (f.(table := f.table - {hash}), Threw)  // self-heal: the row is evicted
  }

  /** `SELECT count(*) ... IN wanted` equals the number of distinct hashes wanted. */
  predicate AllPresent(table: map<Text, Chunk>, wanted: set<Text>) {
    |table.Keys * wanted| == |wanted|
  }

  function WantedSet(chunks: Option<seq<Text>>): set<Text> {
    if chunks.Some? then set h | h in chunks.value else {}
  }

  /** What one promotion does to the floor row. */
  function PromotionStep(s: Store, p: Floor.Pointer, chunks: Option<seq<Text>>, fails: bool): Floor.Step {
    Floor.Step(Floor.Promote(p, AllPresent(InsertRows(s.table, s.pending), WantedSet(chunks))), !fails)
  }

  predicate PromotionCommits(s: Store, p: Floor.Pointer, chunks: Option<seq<Text>>, fails: bool) {
    && !fails
    && AllPresent(InsertRows(s.table, s.pending), WantedSet(chunks))
    && Floor.Admits(s.row, p)
    && Floor.WriteRow(s.row, Floor.Install(s.row, p)).Some?
  }

  function Promote(s: Store, p: Floor.Pointer, chunks: Option<seq<Text>>, fails: bool): Store {
    if !PromotionCommits(s, p, chunks, fails) then s
    else
      s.(table := InsertRows(s.table, s.pending), pending := [], pendingBytes := 0,
         row := Floor.Next(s.row, PromotionStep(s, p, chunks, fails)))
  }

  function PutManifest(c: Primitives, s: Store, body: Bytes, fails: bool): Store {
    if body == [] || |body| > MAX_MANIFEST || fails then s
    else s.(manifests := s.manifests[c.sha(body) := body])
  }

  /** getManifest: the bytes, or a throw that also evicts a row failing its address. */
  function GetManifest(c: Primitives, s: Store, hash: Text): (r: (Store, Outcome<Bytes>)) {
    if hash !in s.manifests then (s, Threw)
    else if |s.manifests[hash]| > MAX_MANIFEST || c.sha(s.manifests[hash]) != hash then
      (s.(manifests := s.manifests - {hash}), Threw)
    else (s, Ok(s.manifests[hash]))
  }

  // ------------------------------------------------------- chunks of a manifest

  const FILES: Text := Canonical.Ascii("files")
  const CHUNKS: Text := Canonical.Ascii("chunks")
  const HASH: Text := Canonical.Ascii("hash")

  /** `(value as {key?: unknown} | null)?.key` */
  function FieldOf(v: Canonical.Json, key: Text): Option<Canonical.Json> {
    if v.JObj? && key in Canonical.Keys(v.members) then Some(Canonical.Get(v, key)) else None
  }

  function ListOf(v: Canonical.Json, key: Text): Option<seq<Canonical.Json>> {
    match FieldOf(v, key)
    case Some(JArr(items)) => Some(items)
    case _ => None
  }

  function HashOf(chunk: Canonical.Json): Option<Text> {
    match FieldOf(chunk, HASH)
    case Some(JStr(h)) => if HexText(h, 64) then Some(h) else None
    case _ => None
  }

  /** The chunk hashes of one file, None where a value is not what it should be. */
  type Hashes = seq<Option<Text>>
  type Listing = seq<Option<Hashes>>

  function FileListing(file: Canonical.Json): Option<Hashes> {
    match ListOf(file, CHUNKS)
    case None => None
    case Some(chunks) => Some(seq(|chunks|, j requires 0 <= j < |chunks| => HashOf(chunks[j])))
  }

  /** What the manifest lists, file by file. */
  function ListingOf(manifest: Canonical.Json): Option<Listing> {
    match ListOf(manifest, FILES)
    case None => None
    case Some(files) => Some(seq(|files|, i requires 0 <= i < |files| => FileListing(files[i])))
  }

  predicate AllHashed(hashes: Hashes) {
    forall j :: 0 <= j < |hashes| ==> hashes[j].Some?
  }

  predicate AllListed(files: Listing) {
    forall i :: 0 <= i < |files| ==> files[i].Some? && AllHashed(files[i].value)
  }

  predicate WellShaped(manifest: Canonical.Json) {
    ListingOf(manifest).Some? && AllListed(ListingOf(manifest).value)
  }

  function HashSet(hashes: Hashes): set<Text>
    requires AllHashed(hashes)
  {
    if hashes == [] then {} else HashSet(hashes[..|hashes| - 1]) + {hashes[|hashes| - 1].value}
  }

  function ListedSet(files: Listing): set<Text>
    requires AllListed(files)
  {
    if files == [] then {} else ListedSet(files[..|files| - 1]) + HashSet(files[|files| - 1].value)
  }

  /** Every chunk hash the manifest names, or None when its shape is not understood. */
  function ActiveHashes(manifest: Canonical.Json): Option<set<Text>> {
    if WellShaped(manifest) then Some(ListedSet(ListingOf(manifest).value)) else None
  }

  method CollectHashes(files: Listing) returns (r: Option<set<Text>>)
    ensures r == if AllListed(files) then Some(ListedSet(files)) else None
  {
    var hashes: set<Text> := {};
    for i := 0 to |files|
      invariant AllListed(files[..i])
      invariant hashes == ListedSet(files[..i])
    {
      assert files[..i + 1][..i] == files[..i];
      if files[i].None? {
        return None;
      }
      var chunks := files[i].value;
      ghost var before := hashes;
      for j := 0 to |chunks|
        invariant AllHashed(chunks[..j])
        invariant hashes == before + HashSet(chunks[..j])
      {
        assert chunks[..j + 1][..j] == chunks[..j];
        if chunks[j].None? {
          return None;
        }
        hashes := hashes + {chunks[j].value};
      }
      assert chunks[..|chunks|] == chunks;
    }
    assert files[..|files|] == files;
    return Some(hashes);
  }

  method ActiveChunkHashes(manifest: Canonical.Json) returns (r: Option<set<Text>>)
    ensures r == ActiveHashes(manifest)
  {
    var files := ListingOf(manifest);
    if files.None? {
      return None;
    }
    r := CollectHashes(files.value);
  }

  // --------------------------------------------------------------------- pruning

  function Prune(c: Primitives, s: Store, fails: bool): Store {
    if FlushThrows(s, fails) then s
    else
      var f := Flush(s, fails);
      match Floor.Served(f.row)
      case None => f
      case Some(active) =>
        var (g, bytes) := GetManifest(c, f, active.manifestHash);
        if bytes.Threw? || c.parse(bytes.value).None? then g
        else
          match ActiveHashes(c.parse(bytes.value).value)
          case None => g
          case Some(keep) =>
            if fails then g
            else g.(table := map h | h in g.table && h in keep :: g.table[h],
                    manifests := map h | h in g.manifests && h == active.manifestHash :: g.manifests[h])
  }

  function ClearActiveIf(s: Store, p: Floor.Pointer, fails: bool): Store {
    s.(row := Floor.Next(s.row, Floor.Step(Floor.ClearActiveIf(p), !fails)))
  }

  function InsertManifests(table: map<Text, Bytes>, rows: seq<(Text, Bytes)>): map<Text, Bytes> {
    if rows == [] then table
    else
      var before := InsertManifests(table, rows[..|rows| - 1]);
      var last := rows[|rows| - 1];
      if last.0 in before then before else before[last.0 := last.1]
  }

  /** One transaction: rows, the merged floor, and the state `copied` unless already `done`. */
  function ImportLegacy(s: Store, chunks: seq<Chunk>, manifests: seq<(Text, Bytes)>,
                        slots: seq<Option<Floor.Pointer>>, fails: bool): Store {
    if fails || Floor.WriteRow(s.row, Floor.MergeLegacy(s.row, slots)).None? then s
    else
      s.(table := InsertRows(s.table, chunks), manifests := InsertManifests(s.manifests, manifests),
         row := Floor.Next(s.row, Floor.Step(Floor.MergeSlots(slots), true)),
         migration := if s.migration.Done? then Done else Copied)
  }

  function RaiseLegacyFloor(s: Store, slots: seq<Option<Floor.Pointer>>, fails: bool): Store {
    s.(row := Floor.Next(s.row, Floor.Step(Floor.MergeSlots(slots), !fails)))
  }

  // ------------------------------------------------------------------- the class

  /** The store as an object: its buffer, and the tables of its connection. */
  class SqliteCacheStore {
    const c: Primitives
    var pending: seq<Chunk>
    var pendingBytes: nat
    var table: map<Text, Chunk>
    var manifests: map<Text, Bytes>
    var row: Floor.Row
    var migration: MigrationState

    function Value(): Store
      reads this
    {
      Store(pending, pendingBytes, table, manifests, row, migration)
    }

    constructor (c: Primitives)
      ensures this.c == c && Value() == Store([], 0, map[], map[], Floor.EMPTY_ROW, NotStarted)
    {
      this.c := c;
      pending, pendingBytes, table, manifests, row, migration := [], 0, map[], map[], Floor.EMPTY_ROW, NotStarted;
    }

    method InsertAll(rows: seq<Chunk>)
      modifies this`table
      ensures table == InsertRows(old(table), rows)
    {
      for i := 0 to |rows|
        invariant table == InsertRows(old(table), rows[..i])
      {
        assert rows[..i + 1][..i] == rows[..i];
        if rows[i].hash !in table {
          table := table[rows[i].hash := rows[i]];
        }
      }
      assert rows[..|rows|] == rows;
    }

    method FlushPending(fails: bool) returns (threw: bool)
      modifies this
      ensures Value() == Flush(old(Value()), fails)
      ensures threw == FlushThrows(old(Value()), fails)
    {
      if pending == [] {
        return false;
      }
      if fails {
        return true;
      }
      InsertAll(pending);
      pending, pendingBytes := [], 0;
      return false;
    }

    method PutChunkCompressed(hash: Text, compressed: Bytes, expectedSize: int, fails: bool) returns (threw: bool)
      modifies this
      ensures Value() == Put(c, old(Value()), Chunk(hash, expectedSize, compressed), fails)
      ensures threw == PutThrows(c, old(Value()), Chunk(hash, expectedSize, compressed), fails)
      ensures !threw ==> HasChunk(Value(), hash)
    {
      if compressed == [] || |compressed| > MAX_COMPRESSED {
        return true;
      }
      if Verify(c, hash, compressed, expectedSize).None? {
        return true;
      }
      if Buffered(pending, hash) {
        return false;
      }
      ghost var at := |pending|;
      pending := pending + [Chunk(hash, expectedSize, compressed)];
      pendingBytes := pendingBytes + |compressed|;
      assert pending[at].hash == hash;
      if |pending| >= FLUSH_CHUNKS || pendingBytes >= FLUSH_BYTES {
        ghost var rows := pending;
        InsertedAreIn(table, rows);
        threw := FlushPending(fails);
        return threw;
      }
      return false;
    }

    method GetChunk(hash: Text, expectedSize: int, fails: bool) returns (r: Outcome<Bytes>)
      modifies this
      ensures (Value(), r) == Read(c, old(Value()), hash, expectedSize, fails)
    {
      var threw := FlushPending(fails);
      if threw || hash !in table {
        return Threw;
      }
      var body := table[hash].body;
      if body == [] || |body| > MAX_COMPRESSED {
        table := table - {hash};
        return Threw;
      }
      match Verify(c, hash, body, expectedSize)
      case Some(plain) =>
        return Ok(plain);
      case None =>
        table := table - {hash};
        return Threw;
    }

    method PutManifestBytes(body: Bytes, fails: bool) returns (threw: bool)
      modifies this`manifests
      ensures Value() == PutManifest(c, old(Value()), body, fails)
      ensures threw <==> body == [] || |body| > MAX_MANIFEST || fails
      ensures !threw ==> c.sha(body) in manifests && manifests[c.sha(body)] == body
    {
      if body == [] || |body| > MAX_MANIFEST || fails {
        return true;
      }
      manifests := manifests[c.sha(body) := body];
      return false;
    }

    method GetManifestBytes(hash: Text) returns (r: Outcome<Bytes>)
      modifies this`manifests
      ensures (Value(), r) == GetManifest(c, old(Value()), hash)
      ensures r.Ok? ==> c.sha(r.value) == hash
    {
      if hash !in manifests {
        return Threw;
      }
      var body := manifests[hash];
      if |body| > MAX_MANIFEST || c.sha(body) != hash {
        manifests := manifests - {hash};
        return Threw;
      }
      return Ok(body);
    }

    /** One transaction over the buffer, the presence check, the gate and the row. */
    method PromotePointer(p: Floor.Pointer, chunks: Option<seq<Text>>, fails: bool) returns (threw: bool)
      modifies this
      ensures Value() == Promote(old(Value()), p, chunks, fails)
      ensures threw == !PromotionCommits(old(Value()), p, chunks, fails)
    {
      var before := table;
      InsertAll(pending);
      var wanted := WantedSet(chunks);
      var target := Floor.WriteRow(row, Floor.Install(row, p));
      if fails || |table.Keys * wanted| != |wanted| || !Floor.Admits(row, p) || target.None? {
        table := before;  // rolled back
        return true;
      }
      row := target.value;
      pending, pendingBytes := [], 0;
      return false;
    }

    method PruneInactive(fails: bool)
      modifies this
      ensures Value() == Prune(c, old(Value()), fails)
    {
      var threw := FlushPending(fails);
      if threw {
        return;
      }
      var active := Floor.Served(row);
      if active.None? {
        return;
      }
      var hash := active.value.manifestHash;
      if hash !in manifests {
        return;
      }
      var bytes := manifests[hash];
      if |bytes| > MAX_MANIFEST || c.sha(bytes) != hash {
        manifests := manifests - {hash};
        return;
      }
      var parsed := c.parse(bytes);
      if parsed.None? {
        return;
      }
      var keep := ActiveChunkHashes(parsed.value);
      if keep.None? || fails {
        return;
      }
      table := map h | h in table && h in keep.value :: table[h];
      manifests := map h | h in manifests && h == hash :: manifests[h];
    }

    method RaiseFloor(slots: seq<Option<Floor.Pointer>>, fails: bool) returns (threw: bool)
      modifies this`row
      ensures Value() == RaiseLegacyFloor(old(Value()), slots, fails)
      ensures threw == (fails || Floor.WriteRow(old(row), Floor.MergeLegacy(old(row), slots)).None?)
    {
      var target := Floor.WriteRow(row, Floor.MergeLegacy(row, slots));
      if fails || target.None? {
        return true;
      }
      row := target.value;
      return false;
    }

    method ImportLegacyStore(chunks: seq<Chunk>, rows: seq<(Text, Bytes)>,
                             slots: seq<Option<Floor.Pointer>>, fails: bool)
      returns (threw: bool)
      modifies this
      ensures Value() == ImportLegacy(old(Value()), chunks, rows, slots, fails)
      ensures threw == (fails || Floor.WriteRow(old(row), Floor.MergeLegacy(old(row), slots)).None?)
    {
      var target := Floor.WriteRow(row, Floor.MergeLegacy(row, slots));
      if fails || target.None? {
        return true;
      }
      InsertAll(chunks);
      for i := 0 to |rows|
        invariant manifests == InsertManifests(old(manifests), rows[..i])
        invariant table == InsertRows(old(table), chunks)
        invariant unchanged(`pending) && unchanged(`pendingBytes) && unchanged(`row) && unchanged(`migration)
      {
        assert rows[..i + 1][..i] == rows[..i];
        if rows[i].0 !in manifests {
          manifests := manifests[rows[i].0 := rows[i].1];
        }
      }
      assert rows[..|rows|] == rows;
      row := target.value;
      if !migration.Done? {
        migration := Copied;
      }
      return false;
    }
  }

  // ------------------------------------------------------------------ facts on rows

  lemma {:induction false} InsertedAreIn(table: map<Text, Chunk>, rows: seq<Chunk>)
    ensures InsertRows(table, rows).Keys == table.Keys + set i | 0 <= i < |rows| :: rows[i].hash
    ensures forall h :: h in table ==> InsertRows(table, rows)[h] == table[h]
    ensures forall h :: h in InsertRows(table, rows) && h !in table ==>
              exists i :: 0 <= i < |rows| && rows[i].hash == h && InsertRows(table, rows)[h] == rows[i]
  {
    if rows != [] {
      var n := |rows| - 1;
      InsertedAreIn(table, rows[..n]);
      var before, after := InsertRows(table, rows[..n]), InsertRows(table, rows);
      assert (set i | 0 <= i < |rows| :: rows[i].hash) == (set i | 0 <= i < n :: rows[..n][i].hash) + {rows[n].hash};
      forall h | h in after && h !in table
        ensures exists i :: 0 <= i < |rows| && rows[i].hash == h && after[h] == rows[i]
      {
        if h in before {
          var i :| 0 <= i < n && rows[..n][i].hash == h && before[h] == rows[..n][i];
          assert rows[i] == rows[..n][i];
        }
      }
    }
  }
}
