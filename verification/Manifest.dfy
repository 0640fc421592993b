/**
 * `assertManifest` (src/engine/sync.ts): which JSON values are manifests of a pointer, and what that
 * guarantees about the files they list.
 */
module Manifest {
  import opened Prelude
  import opened Canonical
  import ChunkStore
  import Floor
  import opened PointerJson
  import Release

  const MAX_FILES: nat := 1024
  const MAX_REFS: nat := 8192
  const MAX_DISTINCT: nat := 4096
  const MAX_FILE_BYTES: nat := 256 * 1024 * 1024
  const MAX_TOTAL_BYTES: nat := 512 * 1024 * 1024

  const SCHEMA_VERSION: Text := Canonical.Ascii("schema_version")
  const PATH: Text := Canonical.Ascii("path")
  const FILE_SHA256: Text := Canonical.Ascii("file_sha256")
  const SIZE: Text := Canonical.Ascii("size")

  const SLASH: Unit := 0x2F
  const BACKSLASH: Unit := 0x5C
  const PARENT: Text := [0x2E, 0x2E]

  predicate SafePath(path: Text) {
    && 0 < |path| <= 1024
    && path[0] != SLASH
    && BACKSLASH !in path
    && PARENT !in Release.Split(path, SLASH)
  }

  type Path = t: Text | SafePath(t) witness [0x61]
  type ChunkSize = n: nat | n <= ChunkStore.MAX_DECOMPRESSED
  type FileSize = n: nat | n <= MAX_FILE_BYTES

  datatype Ref = Ref(hash: Text, size: ChunkSize)
  datatype File = File(path: Path, sha: Text, size: FileSize, chunks: seq<Ref>)

  /** A file entry as listed; None where a chunk reference is not what it should be. */
  datatype Entry = Entry(path: Path, sha: Text, size: FileSize, refs: seq<Option<Ref>>)

  // ------------------------------------------------------------- reading the parts

  function HashField(v: Json, key: Text): Option<Text> {
    match TextField(v, key)
    case Some(s) => if HexText(s, 64) then Some(s) else None
    case None => None
  }

  /** A non-negative safe integer of at most `maximum`. */
  function SizeField(v: Json, key: Text, maximum: nat): Option<nat> {
    match ChunkStore.FieldOf(v, key)
    case Some(JNum(n)) => if SafeInteger(n) && 0 <= n <= maximum then Some(n) else None
    case _ => None
  }

  function RefOf(v: Json): Option<Ref> {
    var hash, size := HashField(v, ChunkStore.HASH), SizeField(v, SIZE, ChunkStore.MAX_DECOMPRESSED);
    if hash.Some? && size.Some? then Some(Ref(hash.value, size.value)) else None
  }

  function EntryOf(v: Json): Option<Entry> {
    var path, sha := TextField(v, PATH), HashField(v, FILE_SHA256);
    var size, items := SizeField(v, SIZE, MAX_FILE_BYTES), ChunkStore.ListOf(v, ChunkStore.CHUNKS);
    if path.Some? && SafePath(path.value) && sha.Some? && size.Some? && items.Some? then
      Some(Entry(path.value, sha.value, size.value,
                 seq(|items.value|, k requires 0 <= k < |items.value| => RefOf(items.value[k]))))
    else None
  }

  function EntriesOf(items: seq<Json>): (entries: seq<Option<Entry>>)
    ensures |entries| == |items|
  {
    seq(|items|, k requires 0 <= k < |items| => EntryOf(items[k]))
  }

  predicate AllRead(refs: seq<Option<Ref>>) {
    forall k :: 0 <= k < |refs| ==> refs[k].Some?
  }

  function RefsOf(refs: seq<Option<Ref>>): (r: seq<Ref>)
    requires AllRead(refs)
    ensures |r| == |refs| && forall k :: 0 <= k < |r| ==> r[k] == refs[k].value
  {
    seq(|refs|, k requires 0 <= k < |refs| => refs[k].value)
  }

  predicate WellFormed(entries: seq<Option<Entry>>) {
    forall k :: 0 <= k < |entries| ==> entries[k].Some? && AllRead(entries[k].value.refs)
  }

  function FileOf(e: Entry): File
    requires AllRead(e.refs)
  {
    File(e.path, e.sha, e.size, RefsOf(e.refs))
  }

  function FilesOf(entries: seq<Option<Entry>>): (files: seq<File>)
    requires WellFormed(entries)
    ensures |files| == |entries| && forall k :: 0 <= k < |files| ==> files[k] == FileOf(entries[k].value)
  {
    seq(|entries|, k requires 0 <= k < |entries| => FileOf(entries[k].value))
  }

  // --------------------------------------------------------------------- the rules

  function TotalSize(refs: seq<Ref>): nat {
    if refs == [] then 0 else TotalSize(refs[..|refs| - 1]) + refs[|refs| - 1].size
  }

  function AllRefs(files: seq<File>): seq<Ref> {
    if files == [] then [] else AllRefs(files[..|files| - 1]) + files[|files| - 1].chunks
  }

  function FileBytes(files: seq<File>): nat {
    if files == [] then 0 else FileBytes(files[..|files| - 1]) + files[|files| - 1].size
  }

  /** The distinct hashes, in order of first appearance. */
  function Firsts(refs: seq<Ref>): seq<Text> {
    if refs == [] then []
    else
      var front := Firsts(refs[..|refs| - 1]);
      if refs[|refs| - 1].hash in front then front else front + [refs[|refs| - 1].hash]
  }

  function DistinctBytes(refs: seq<Ref>): nat {
    if refs == [] then 0
    else
      DistinctBytes(refs[..|refs| - 1])
      + if refs[|refs| - 1].hash in Firsts(refs[..|refs| - 1]) then 0 else refs[|refs| - 1].size
  }

  /** One hash, one size. */
  predicate Consistent(refs: seq<Ref>) {
    forall i, j :: 0 <= i < j < |refs| && refs[i].hash == refs[j].hash ==> refs[i].size == refs[j].size
  }

  predicate DistinctPaths(files: seq<File>) {
    forall i, j :: 0 <= i < j < |files| ==> files[i].path != files[j].path
  }

  /** Every file's chunks add up to the size it declares. */
  predicate ChunksFill(files: seq<File>) {
    forall k :: 0 <= k < |files| ==> TotalSize(files[k].chunks) == files[k].size
  }

  predicate Orderly(files: seq<File>) {
    DistinctPaths(files) && |AllRefs(files)| <= MAX_REFS && Consistent(AllRefs(files)) && ChunksFill(files)
  }

  predicate WithinCaps(files: seq<File>) {
    && |Firsts(AllRefs(files))| <= MAX_DISTINCT
    && FileBytes(files) <= MAX_TOTAL_BYTES
    && DistinctBytes(AllRefs(files)) <= MAX_TOTAL_BYTES
  }

  /** The entries of a manifest whose header names this pointer's release. */
  function Header(v: Json, pointer: Floor.Pointer): Option<seq<Option<Entry>>> {
    var bundle, version := TextField(v, BUNDLE_ID), TextField(v, VERSION);
    var items := ChunkStore.ListOf(v, ChunkStore.FILES);
    if && ChunkStore.FieldOf(v, SCHEMA_VERSION) == Some(JNum(2))
       && bundle.Some? && version.Some? && items.Some? && |items.value| <= MAX_FILES
       && version.value == pointer.version
       && (pointer.bundleId.Value? ==> bundle.value == pointer.bundleId.v)
    then Some(EntriesOf(items.value)) else None
  }

  /** The files of the listing when it meets every rule, or None. */
  function Checked(entries: seq<Option<Entry>>): Option<seq<File>> {
    if WellFormed(entries) && Orderly(FilesOf(entries)) && WithinCaps(FilesOf(entries)) then Some(FilesOf(entries))
    else None
  }

  function Accepted(v: Json, pointer: Floor.Pointer): Option<seq<File>> {
    match Header(v, pointer)
    case None => None
    case Some(entries) => Checked(entries)
  }

  // ----------------------------------------------------------------------- prefixes

  lemma {:induction false} AllRefsPrefix(files: seq<File>, k: nat)
    requires k <= |files|
    ensures AllRefs(files[..k]) <= AllRefs(files)
  {
    if k == |files| {
      assert files[..k] == files;
    } else {
      AllRefsPrefix(files[..|files| - 1], k);
      assert files[..|files| - 1][..k] == files[..k];
    }
  }

  lemma ConsistentPrefix(refs: seq<Ref>, more: seq<Ref>)
    requires refs <= more && Consistent(more)
    ensures Consistent(refs)
  {
    forall i, j | 0 <= i < j < |refs| && refs[i].hash == refs[j].hash ensures refs[i].size == refs[j].size {
      assert refs[i] == more[i] && refs[j] == more[j];
    }
  }

  /** A manifest that is in order is in order up to every file. */
  lemma OrderlyPrefix(files: seq<File>, k: nat)
    requires k <= |files| && Orderly(files)
    ensures Orderly(files[..k])
  {
    AllRefsPrefix(files, k);
    ConsistentPrefix(AllRefs(files[..k]), AllRefs(files));
  }

  // --------------------------------------------------------------- safe arithmetic

  lemma {:induction false} TotalSizeBound(refs: seq<Ref>)
    ensures TotalSize(refs) <= |refs| * ChunkStore.MAX_DECOMPRESSED
  {
    if refs != [] {
      TotalSizeBound(refs[..|refs| - 1]);
    }
  }

  lemma {:induction false} FileBytesBound(files: seq<File>)
    ensures FileBytes(files) <= |files| * MAX_FILE_BYTES
  {
    if files != [] {
      FileBytesBound(files[..|files| - 1]);
    }
  }

  lemma {:induction false} DistinctBytesBound(refs: seq<Ref>)
    ensures DistinctBytes(refs) <= |refs| * ChunkStore.MAX_DECOMPRESSED
  {
    if refs != [] {
      DistinctBytesBound(refs[..|refs| - 1]);
    }
  }

  lemma CountBounds(total: nat, count: nat, each: nat, most: nat)
    requires total <= count * each && count <= most
    ensures total <= most * each
  {
  }

  /** Within the reference and file caps every running sum is a safe integer: `checkedAdd` never throws. */
  lemma SumsAreSafe(refs: seq<Ref>, files: seq<File>)
    requires |refs| <= MAX_REFS && |files| <= MAX_FILES
    ensures SafeInteger(TotalSize(refs)) && SafeInteger(DistinctBytes(refs)) && SafeInteger(FileBytes(files))
  {
    TotalSizeBound(refs);
    CountBounds(TotalSize(refs), |refs|, ChunkStore.MAX_DECOMPRESSED, MAX_REFS);
    DistinctBytesBound(refs);
    CountBounds(DistinctBytes(refs), |refs|, ChunkStore.MAX_DECOMPRESSED, MAX_REFS);
    FileBytesBound(files);
    CountBounds(FileBytes(files), |files|, MAX_FILE_BYTES, MAX_FILES);
  }

  // -------------------------------------------------------------------- the method

  /** The map of sizes by hash, kept with its insertion order. */
  ghost predicate Tracks(sizes: map<Text, nat>, order: seq<Text>, refs: seq<Ref>) {
    && order == Firsts(refs)
    && (forall h :: h in sizes <==> h in order)
    && (forall k :: 0 <= k < |refs| ==> refs[k].hash in sizes && sizes[refs[k].hash] == refs[k].size)
  }

  lemma TracksIsConsistent(sizes: map<Text, nat>, order: seq<Text>, refs: seq<Ref>)
    requires Tracks(sizes, order, refs)
    ensures Consistent(refs)
  {
  }

  /** A first appearance is where its hash comes from. */
  lemma {:induction false} FirstsComeFromRefs(refs: seq<Ref>, h: Text)
    requires h in Firsts(refs)
    ensures exists k :: 0 <= k < |refs| && refs[k].hash == h
  {
    var n := |refs| - 1;
    if h in Firsts(refs[..n]) {
      FirstsComeFromRefs(refs[..n], h);
      var k :| 0 <= k < n && refs[..n][k].hash == h;
      assert refs[k].hash == h;
    } else {
      assert refs[n].hash == h;
    }
  }

  lemma TracksOneMore(sizes: map<Text, nat>, order: seq<Text>, refs: seq<Ref>, ref: Ref)
    requires Tracks(sizes, order, refs)
    ensures if ref.hash in sizes && sizes[ref.hash] != ref.size then !Consistent(refs + [ref])
            else Tracks(sizes[ref.hash := ref.size],
                        if ref.hash in sizes then order else order + [ref.hash], refs + [ref])
  {
    var more := refs + [ref];
    assert more[..|refs|] == refs;
    if ref.hash in sizes && sizes[ref.hash] != ref.size {
      FirstsComeFromRefs(refs, ref.hash);
      var k :| 0 <= k < |refs| && refs[k].hash == ref.hash;
      assert more[k] == refs[k] && more[|refs|] == ref;
    }
  }

  function SumBy(order: seq<Text>, sizes: map<Text, nat>): nat {
    if order == [] then 0
    else SumBy(order[..|order| - 1], sizes) + if order[|order| - 1] in sizes then sizes[order[|order| - 1]] else 0
  }

  lemma {:induction false} SumByFirsts(refs: seq<Ref>, sizes: map<Text, nat>)
    requires forall k :: 0 <= k < |refs| ==> refs[k].hash in sizes && sizes[refs[k].hash] == refs[k].size
    ensures SumBy(Firsts(refs), sizes) == DistinctBytes(refs)
  {
    if refs != [] {
      var n := |refs| - 1;
      SumByFirsts(refs[..n], sizes);
      var front := Firsts(refs[..n]);
      if refs[n].hash !in front {
        assert (front + [refs[n].hash])[..|front|] == front;
      }
    }
  }

  lemma ReadPrefix(refs: seq<Option<Ref>>, j: nat)
    requires j < |refs| && AllRead(refs[..j]) && refs[j].Some?
    ensures AllRead(refs[..j + 1]) && RefsOf(refs[..j + 1]) == RefsOf(refs[..j]) + [refs[j].value]
  {
  }

  lemma ConflictStays(before: seq<Ref>, refs: seq<Option<Ref>>, j: nat)
    requires j < |refs| && AllRead(refs[..j]) && refs[j].Some?
    requires !Consistent(before + RefsOf(refs[..j]) + [refs[j].value])
    ensures !(AllRead(refs) && Consistent(before + RefsOf(refs)))
  {
    if AllRead(refs) && Consistent(before + RefsOf(refs)) {
      assert RefsOf(refs)[..j] == RefsOf(refs[..j]);
      assert before + RefsOf(refs[..j]) + [refs[j].value] <= before + RefsOf(refs);
      ConsistentPrefix(before + RefsOf(refs[..j]) + [refs[j].value], before + RefsOf(refs));
    }
  }

  lemma ReadOneMore(before: seq<Ref>, refs: seq<Option<Ref>>, j: nat)
    requires j < |refs| && AllRead(refs[..j]) && refs[j].Some? && |before| + j < MAX_REFS
    ensures AllRead(refs[..j + 1])
    ensures before + RefsOf(refs[..j + 1]) == before + RefsOf(refs[..j]) + [refs[j].value]
    ensures TotalSize(RefsOf(refs[..j + 1])) == TotalSize(RefsOf(refs[..j])) + refs[j].value.size
    ensures SafeInteger(TotalSize(RefsOf(refs[..j + 1])))
  {
    ReadPrefix(refs, j);
    assert (RefsOf(refs[..j]) + [refs[j].value])[..j] == RefsOf(refs[..j]);
    SumsAreSafe(RefsOf(refs[..j + 1]), []);
  }

  /** One reference against the map: refused exactly when its hash is known at another size. */
  method AddRef(ref: Ref, known: map<Text, nat>, firsts: seq<Text>, ghost seen: seq<Ref>)
      returns (ok: bool, sizes: map<Text, nat>, order: seq<Text>)
    requires Tracks(known, firsts, seen)
    ensures ok <==> Consistent(seen + [ref])
    ensures ok ==> Tracks(sizes, order, seen + [ref])
  {
    sizes, order := known, firsts;
    TracksOneMore(sizes, order, seen, ref);
    if ref.hash in sizes && sizes[ref.hash] != ref.size {
      return false, sizes, order;
    }
    if ref.hash !in sizes {
      order := order + [ref.hash];
    }
    sizes := sizes[ref.hash := ref.size];
    TracksIsConsistent(sizes, order, seen + [ref]);
    ok := true;
  }

  /** The chunk list of one file, counted into what the files before it already referred to. */
  method ReadChunks(refs: seq<Option<Ref>>, known: map<Text, nat>, firsts: seq<Text>, counted: nat,
                    ghost before: seq<Ref>)
      returns (ok: bool, sizes: map<Text, nat>, order: seq<Text>, references: nat, assembled: nat)
    requires Tracks(known, firsts, before) && counted == |before| <= MAX_REFS
    ensures ok <==> AllRead(refs) && |before| + |refs| <= MAX_REFS && Consistent(before + RefsOf(refs))
    ensures ok ==> Tracks(sizes, order, before + RefsOf(refs)) && references == |before| + |refs|
                   && assembled == TotalSize(RefsOf(refs))
  {
    sizes, order, references, assembled := known, firsts, counted, 0;
    assert before + RefsOf(refs[..0]) == before;
    for j := 0 to |refs|
      invariant AllRead(refs[..j])
      invariant references == |before| + j <= MAX_REFS
      invariant Tracks(sizes, order, before + RefsOf(refs[..j]))
      invariant assembled == TotalSize(RefsOf(refs[..j]))
    {
      if refs[j].None? {
        return false, sizes, order, references, assembled;
      }
      references := references + 1;
      if references > MAX_REFS {
        return false, sizes, order, references, assembled;
      }
      var added;
      added, sizes, order := AddRef(refs[j].value, sizes, order, before + RefsOf(refs[..j]));
      if !added {
        ConflictStays(before, refs, j);
        return false, sizes, order, references, assembled;
      }
      ReadOneMore(before, refs, j);
      assembled := assembled + refs[j].value.size;
      assert SafeInteger(assembled);
    }
    assert refs[..|refs|] == refs;
    TracksIsConsistent(sizes, order, before + RefsOf(refs));
    ok := true;
  }

  /** One more file that is in order keeps the manifest in order; one that is not spoils it. */
  lemma OneMoreFile(files: seq<File>, file: File)
    requires Orderly(files)
    ensures AllRefs(files + [file]) == AllRefs(files) + file.chunks
    ensures FileBytes(files + [file]) == FileBytes(files) + file.size
    ensures Orderly(files + [file]) <==>
              && (forall i :: 0 <= i < |files| ==> files[i].path != file.path)
              && |AllRefs(files)| + |file.chunks| <= MAX_REFS
              && Consistent(AllRefs(files) + file.chunks)
              && TotalSize(file.chunks) == file.size
  {
    var more := files + [file];
    assert more[..|files|] == files;
    assert ChunksFill(more) ==> TotalSize(more[|files|].chunks) == more[|files|].size;
    assert DistinctPaths(more) ==> forall i :: 0 <= i < |files| ==> more[i].path != more[|files|].path;
  }

  lemma FilesOfPrefix(entries: seq<Option<Entry>>, k: nat)
    requires k <= |entries| && WellFormed(entries)
    ensures WellFormed(entries[..k]) && FilesOf(entries[..k]) == FilesOf(entries)[..k]
  {
  }

  /** What spoils a prefix spoils the whole listing. */
  lemma SpoiltPrefix(entries: seq<Option<Entry>>, k: nat)
    requires k <= |entries|
    requires WellFormed(entries[..k]) ==> !Orderly(FilesOf(entries[..k]))
    ensures Checked(entries).None?
  {
    if WellFormed(entries) && Orderly(FilesOf(entries)) {
      FilesOfPrefix(entries, k);
      OrderlyPrefix(FilesOf(entries), k);
    }
  }

  ghost predicate IsPathSet(paths: set<Path>, files: seq<File>) {
    forall p: Path :: p in paths <==> exists i :: 0 <= i < |files| && files[i].path == p
  }

  lemma PathSetGrows(paths: set<Path>, files: seq<File>, file: File)
    requires IsPathSet(paths, files)
    ensures IsPathSet(paths + {file.path}, files + [file])
  {
    var more := files + [file];
    forall p: Path ensures p in paths + {file.path} <==> exists i :: 0 <= i < |more| && more[i].path == p {
      if p in paths {
        var i :| 0 <= i < |files| && files[i].path == p;
        assert more[i].path == p;
      }
      if p == file.path {
        assert more[|files|].path == p;
      }
    }
  }

  lemma NextEntry(entries: seq<Option<Entry>>, k: nat)
    requires k < |entries| && WellFormed(entries[..k])
    ensures WellFormed(entries[..k + 1]) <==> entries[k].Some? && AllRead(entries[k].value.refs)
    ensures WellFormed(entries[..k + 1]) ==>
              FilesOf(entries[..k + 1]) == FilesOf(entries[..k]) + [FileOf(entries[k].value)]
  {
    assert entries[..k + 1] == entries[..k] + [entries[k]];
    if WellFormed(entries[..k + 1]) {
      assert entries[..k + 1][k] == entries[k];
    }
  }

  method SumSizes(order: seq<Text>, sizes: map<Text, nat>, ghost refs: seq<Ref>) returns (total: nat)
    requires Tracks(sizes, order, refs)
    ensures total == DistinctBytes(refs)
  {
    total := 0;
    for i := 0 to |order|
      invariant total == SumBy(order[..i], sizes)
    {
      assert order[..i + 1][..i] == order[..i];
      total := total + sizes[order[i]];
    }
    assert order[..|order|] == order;
    SumByFirsts(refs, sizes);
  }

  /** Whether entry `k` keeps what was read before it in order. */
  predicate Fits(files: seq<File>, e: Entry) {
    && (forall i :: 0 <= i < |files| ==> files[i].path != e.path)
    && AllRead(e.refs)
    && |AllRefs(files)| + |e.refs| <= MAX_REFS
    && Consistent(AllRefs(files) + RefsOf(e.refs))
    && TotalSize(RefsOf(e.refs)) == e.size
  }

  lemma EntrySpoils(entries: seq<Option<Entry>>, k: nat)
    requires k < |entries| && WellFormed(entries[..k]) && Orderly(FilesOf(entries[..k]))
    requires entries[k].None? || !Fits(FilesOf(entries[..k]), entries[k].value)
    ensures Checked(entries).None?
  {
    NextEntry(entries, k);
    if entries[k].Some? && AllRead(entries[k].value.refs) {
      OneMoreFile(FilesOf(entries[..k]), FileOf(entries[k].value));
    }
    SpoiltPrefix(entries, k + 1);
  }

  lemma EntryJoins(entries: seq<Option<Entry>>, k: nat)
    requires k < |entries| && WellFormed(entries[..k]) && Orderly(FilesOf(entries[..k]))
    requires entries[k].Some? && Fits(FilesOf(entries[..k]), entries[k].value)
    ensures WellFormed(entries[..k + 1])
    ensures var before, after := FilesOf(entries[..k]), FilesOf(entries[..k + 1]);
            Orderly(after) && after == before + [FileOf(entries[k].value)]
            && AllRefs(after) == AllRefs(before) + RefsOf(entries[k].value.refs)
            && FileBytes(after) == FileBytes(before) + entries[k].value.size
  {
    NextEntry(entries, k);
    OneMoreFile(FilesOf(entries[..k]), FileOf(entries[k].value));
  }

  /** What the outer loop carries: a path set, the map of sizes by hash, and the running counts. */
  datatype Seen = Seen(paths: set<Path>, sizes: map<Text, nat>, order: seq<Text>, references: nat, totalFiles: nat)

  ghost predicate Covers(seen: Seen, files: seq<File>) {
    && IsPathSet(seen.paths, files)
    && Tracks(seen.sizes, seen.order, AllRefs(files)) && seen.references == |AllRefs(files)|
    && seen.totalFiles == FileBytes(files)
  }

  /** The body of the outer loop. */
  method ReadFile(entry: Option<Entry>, seen: Seen, ghost files: seq<File>) returns (r: Option<Seen>)
    requires Covers(seen, files) && Orderly(files) && |files| < MAX_FILES
    ensures r.Some? <==> entry.Some? && Fits(files, entry.value)
    ensures r.Some? ==> Covers(r.value, files + [FileOf(entry.value)])
  {
    if entry.None? || entry.value.path in seen.paths {
      return None;
    }
    var e := entry.value;
    var read, sizes, order, references, assembled :=
      ReadChunks(e.refs, seen.sizes, seen.order, seen.references, AllRefs(files));
    if !read || assembled != e.size {
      return None;
    }
    PathSetGrows(seen.paths, files, FileOf(e));
    OneMoreFile(files, FileOf(e));
    var totalFiles := seen.totalFiles + e.size;
    SumsAreSafe([], files + [FileOf(e)]);
    assert SafeInteger(totalFiles);
    return Some(Seen(seen.paths + {e.path}, sizes, order, references, totalFiles));
  }

  method ReadFiles(entries: seq<Option<Entry>>) returns (r: Option<(seq<File>, Seen)>)
    requires |entries| <= MAX_FILES
    ensures r.None? ==> Checked(entries).None?
    ensures r.Some? ==> WellFormed(entries) && r.value.0 == FilesOf(entries) && Orderly(r.value.0)
                        && Covers(r.value.1, r.value.0)
  {
    var seen, files := Seen({}, map[], [], 0, 0), [];
    for k := 0 to |entries|
      invariant WellFormed(entries[..k]) && files == FilesOf(entries[..k]) && Orderly(files)
      invariant Covers(seen, files)
    {
      var next := ReadFile(entries[k], seen, files);
      if next.None? {
        EntrySpoils(entries, k);
        return None;
      }
      EntryJoins(entries, k);
      seen, files := next.value, files + [FileOf(entries[k].value)];
    }
    assert entries[..|entries|] == entries;
    return Some((files, seen));
  }

  method AssertListing(entries: seq<Option<Entry>>) returns (r: Option<seq<File>>)
    requires |entries| <= MAX_FILES
    ensures r == Checked(entries)
  {
    var read := ReadFiles(entries);
    if read.None? {
      return None;
    }
    var (files, seen) := read.value;
    if |seen.order| > MAX_DISTINCT {
      return None;
    }
    var totalChunks := SumSizes(seen.order, seen.sizes, AllRefs(files));
    SumsAreSafe(AllRefs(files), []);
    assert SafeInteger(totalChunks);
    if seen.totalFiles > MAX_TOTAL_BYTES || totalChunks > MAX_TOTAL_BYTES {
      return None;
    }
    return Some(files);
  }

  method AssertManifest(v: Json, pointer: Floor.Pointer) returns (r: Option<seq<File>>)
    ensures r == Accepted(v, pointer)
  {
    var entries := Header(v, pointer);
    if entries.None? {
      return None;
    }
    r := AssertListing(entries.value);
  }

  /** Every accepted manifest is safe to sync: what its caps, paths and sizes guarantee. */
  lemma AcceptedManifestsAreBounded(v: Json, pointer: Floor.Pointer)
    requires Accepted(v, pointer).Some?
    ensures var files := Accepted(v, pointer).value;
            && |files| <= MAX_FILES && DistinctPaths(files) && ChunksFill(files)
            && (forall k :: 0 <= k < |files| ==> SafePath(files[k].path))
            && FileBytes(files) <= MAX_TOTAL_BYTES
            && (forall k :: 0 <= k < |files| ==> |files[k].chunks| <= MAX_REFS)
  {
    var files := Accepted(v, pointer).value;
    forall k | 0 <= k < |files| ensures |files[k].chunks| <= MAX_REFS {
      ChunksAreRefs(files, k);
    }
  }

  lemma {:induction false} ChunksAreRefs(files: seq<File>, k: nat)
    requires k < |files|
    ensures |files[k].chunks| <= |AllRefs(files)|
    ensures forall j :: 0 <= j < |files[k].chunks| ==> files[k].chunks[j] in AllRefs(files)
  {
    if k < |files| - 1 {
      ChunksAreRefs(files[..|files| - 1], k);
    }
  }
}
