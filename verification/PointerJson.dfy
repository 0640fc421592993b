/**
 * A pointer as JSON: reading one that arrived (`assertVersionPointer` in src/engine/sync.ts) and the
 * object that storage keeps of it.
 */
module PointerJson {
  import opened Prelude
  import opened Canonical
  import ChunkStore
  import Floor

  const MANIFEST_HASH: Text := Canonical.Ascii("manifest_hash")
  const VERSION: Text := Canonical.Ascii("version")
  const SEQUENCE: Text := Canonical.Ascii("sequence")

  /** A pointer's own keys, in the order of `Fields` below. */
  const KEYS: seq<Text> :=
    [MANIFEST_HASH, VERSION, SIGNATURE, SEQUENCE, BUNDLE_ID, CHANNEL, KEY_ID, EXPIRES_AT]

  function TextOf(j: Option<Json>): Option<Text> {
    match j
    case Some(JStr(s)) => Some(s)
    case _ => None
  }

  function TextField(v: Json, key: Text): Option<Text> {
    TextOf(ChunkStore.FieldOf(v, key))
  }

  /** An optional text property: None when it is of another type. */
  function OptionalText(j: Option<Json>): Option<Field<Text>> {
    match j
    case None => Some(Absent)
    case Some(JNull) => Some(Field.Null)
    case Some(JStr(s)) => Some(Value(s))
    case _ => None
  }

  function OptionalNumber(j: Option<Json>): Option<Field<int>> {
    match j
    case None => Some(Absent)
    case Some(JNull) => Some(Field.Null)
    case Some(JNum(n)) => Some(Value(n))
    case _ => None
  }

  /** The properties a pointer is read from. */
  datatype Fields = Fields(
    hash: Option<Json>, version: Option<Json>, signature: Option<Json>, sequence: Option<Json>,
    bundleId: Option<Json>, channel: Option<Json>, keyId: Option<Json>, expiresAt: Option<Json>)

  function FieldsOf(v: Json): Fields {
    Fields(ChunkStore.FieldOf(v, KEYS[0]), ChunkStore.FieldOf(v, KEYS[1]), ChunkStore.FieldOf(v, KEYS[2]),
           ChunkStore.FieldOf(v, KEYS[3]), ChunkStore.FieldOf(v, KEYS[4]), ChunkStore.FieldOf(v, KEYS[5]),
           ChunkStore.FieldOf(v, KEYS[6]), ChunkStore.FieldOf(v, KEYS[7]))
  }

  function PointerFrom(f: Fields): Option<Floor.Pointer> {
    var hash, version := TextOf(f.hash), TextOf(f.version);
    var signature, sequence := TextOf(f.signature), OptionalNumber(f.sequence);
    var bundleId, channel := OptionalText(f.bundleId), OptionalText(f.channel);
    var keyId, expiresAt := OptionalText(f.keyId), OptionalNumber(f.expiresAt);
    if && hash.Some? && version.Some? && signature.Some? && sequence.Some?
       && bundleId.Some? && channel.Some? && keyId.Some? && expiresAt.Some?
    then
      var p := Floor.Pointer(hash.value, version.value, sequence.value, signature.value,
                             bundleId.value, channel.value, keyId.value, expiresAt.value);
      if Floor.Storable(p) then Some(p) else None
    else None
  }

  /** `assertVersionPointer`: the shape of a pointer that may be handled at all. */
  function PointerOf(v: Json): Option<Floor.Pointer> {
    PointerFrom(FieldsOf(v))
  }

  // ------------------------------------------------------------------ the stored object

  function TextJson(f: Field<Text>): Option<Json> {
    match f
    case Absent => None
    case Null => Some(JNull)
    case Value(s) => Some(JStr(s))
  }

  function NumberJson(f: Field<int>): Option<Json> {
    match f
    case Absent => None
    case Null => Some(JNull)
    case Value(n) => Some(JNum(n))
  }

  function FieldsOfPointer(p: Floor.Pointer): Fields {
    Fields(Some(JStr(p.manifestHash)), Some(JStr(p.version)), Some(JStr(p.signature)), NumberJson(p.sequence),
           TextJson(p.bundleId), TextJson(p.channel), TextJson(p.keyId), NumberJson(p.expiresAt))
  }

  function Nth(f: Fields, i: nat): Option<Json> {
    if i == 0 then f.hash
    else if i == 1 then f.version
    else if i == 2 then f.signature
    else if i == 3 then f.sequence
    else if i == 4 then f.bundleId
    else if i == 5 then f.channel
    else if i == 6 then f.keyId
    else if i == 7 then f.expiresAt
    else None
  }

  function FieldJson(p: Floor.Pointer, i: nat): Option<Json> {
    Nth(FieldsOfPointer(p), i)
  }

  function Members(p: Floor.Pointer, n: nat): seq<(Text, Json)>
    requires n <= |KEYS|
  {
    if n == 0 then []
    else
      match FieldJson(p, n - 1)
      case None => Members(p, n - 1)
      case Some(j) => Members(p, n - 1) + [(KEYS[n - 1], j)]
  }

  /** The pointer as the JSON object that was stored. */
  function JsonOf(p: Floor.Pointer): Json {
    JObj(Members(p, |KEYS|))
  }

  // ------------------------------------------------------------------------ proofs

  lemma KeysAreDistinct()
    ensures Distinct(KEYS) && PROTO !in KEYS
  {
    assert |MANIFEST_HASH| == 13 && |VERSION| == 7 && |SIGNATURE| == 9 && |SEQUENCE| == 8;
    assert |BUNDLE_ID| == 9 && |CHANNEL| == 7 && |KEY_ID| == 6 && |EXPIRES_AT| == 10 && |PROTO| == 9;
    assert VERSION[0] == 'v' as int && CHANNEL[0] == 'c' as int;
    assert SIGNATURE[0] == 's' as int && BUNDLE_ID[0] == 'b' as int && PROTO[0] == '_' as int;
  }

  lemma {:induction false} MembersMean(p: Floor.Pointer, n: nat)
    requires n <= |KEYS|
    ensures Distinct(Keys(Members(p, n)))
    ensures forall m :: m in Members(p, n) <==> exists i :: 0 <= i < n && m.0 == KEYS[i] && FieldJson(p, i) == Some(m.1)
  {
    KeysAreDistinct();
    if n > 0 {
      MembersMean(p, n - 1);
      var before, after := Members(p, n - 1), Members(p, n);
      forall m | m in before ensures exists i :: 0 <= i < n && m.0 == KEYS[i] && FieldJson(p, i) == Some(m.1) {
        var i :| 0 <= i < n - 1 && m.0 == KEYS[i] && FieldJson(p, i) == Some(m.1);
      }
      forall i | 0 <= i < |before| ensures Keys(before)[i] != KEYS[n - 1] {
        assert before[i] in before;
      }
    }
  }

  /** Reading a field of the stored object. */
  lemma StoredField(p: Floor.Pointer, i: nat)
    requires i < |KEYS|
    ensures ChunkStore.FieldOf(JsonOf(p), KEYS[i]) == FieldJson(p, i)
  {
    KeysAreDistinct();
    MembersMean(p, |KEYS|);
    var members := Members(p, |KEYS|);
    KeyHasMember(members, KEYS[i]);
    if FieldJson(p, i).Some? {
      assert (KEYS[i], FieldJson(p, i).value) in members;
    }
  }

  lemma TextReads(f: Field<Text>)
    ensures OptionalText(TextJson(f)) == Some(f)
  {
  }

  lemma NumberReads(f: Field<int>)
    ensures OptionalNumber(NumberJson(f)) == Some(f)
  {
  }

  /** The properties of a storable pointer read as that pointer, and nothing else does. */
  lemma PointerFromInverts(p: Floor.Pointer, f: Fields)
    requires Floor.Storable(p)
    ensures PointerFrom(f) == Some(p) <==> f == FieldsOfPointer(p)
  {
    TextReads(p.bundleId);
    TextReads(p.channel);
    TextReads(p.keyId);
    NumberReads(p.sequence);
    NumberReads(p.expiresAt);
  }

  lemma StoredFields(p: Floor.Pointer)
    ensures FieldsOf(JsonOf(p)) == FieldsOfPointer(p)
  {
    StoredField(p, 0);
    StoredField(p, 1);
    StoredField(p, 2);
    StoredField(p, 3);
    StoredField(p, 4);
    StoredField(p, 5);
    StoredField(p, 6);
    StoredField(p, 7);
  }

  /** Storing a pointer and reading it back gives the same pointer. */
  lemma StoredPointersReadBack(p: Floor.Pointer)
    requires Floor.Storable(p)
    ensures PointerOf(JsonOf(p)) == Some(p)
  {
    StoredFields(p);
    PointerFromInverts(p, FieldsOf(JsonOf(p)));
  }

  lemma ReadsAreStorable(f: Fields)
    requires PointerFrom(f).Some?
    ensures Floor.Storable(PointerFrom(f).value)
  {
  }

  /** A property of two equivalent objects reads alike. */
  lemma FieldReadsAlike(v: Json, w: Json, key: Text)
    requires v.JObj? && Equiv(v, w)
    ensures TextOf(ChunkStore.FieldOf(v, key)) == TextOf(ChunkStore.FieldOf(w, key))
    ensures OptionalText(ChunkStore.FieldOf(v, key)) == OptionalText(ChunkStore.FieldOf(w, key))
    ensures OptionalNumber(ChunkStore.FieldOf(v, key)) == OptionalNumber(ChunkStore.FieldOf(w, key))
  {
    if key in Keys(v.members) {
      assert Equiv(Get(v, key), Get(w, key));
    }
  }

  lemma EquivReadsAlike(v: Json, w: Json)
    requires v.JObj? && Equiv(v, w)
    ensures PointerOf(v) == PointerOf(w)
  {
    FieldReadsAlike(v, w, KEYS[0]);
    FieldReadsAlike(v, w, KEYS[1]);
    FieldReadsAlike(v, w, KEYS[2]);
    FieldReadsAlike(v, w, KEYS[3]);
    FieldReadsAlike(v, w, KEYS[4]);
    FieldReadsAlike(v, w, KEYS[5]);
    FieldReadsAlike(v, w, KEYS[6]);
    FieldReadsAlike(v, w, KEYS[7]);
  }

  lemma NullishAlike(v: Json, w: Json, key: Text)
    requires v.JObj? && Equiv(v, w)
    ensures Nullish(v, key) <==> Nullish(w, key)
  {
    if key in Keys(v.members) {
      assert Equiv(Get(v, key), Get(w, key));
    }
  }

  lemma EquivAgrees(v: Json, w: Json)
    requires v.JObj? && Equiv(v, w)
    ensures CoveredAgree(v, w)
  {
    NullishAlike(v, w, BUNDLE_ID);
    NullishAlike(v, w, CHANNEL);
    NullishAlike(v, w, KEY_ID);
    NullishAlike(v, w, EXPIRES_AT);
    assert SigningExclusions(v) == SigningExclusions(w);
    forall k ensures Covered(v, k) <==> Covered(w, k) {
      assert k in Keys(v.members) <==> k in Keys(w.members);
    }
  }

  /**
   * Storing an object and reading it back may reorder its properties and nothing else: it is the same
   * pointer then, and what was signed of it is the same bytes, whatever further properties it has.
   */
  lemma StorageKeepsThePreimage(v: Json, w: Json)
    requires v.JObj? && Valid(v) && Valid(w) && Equiv(v, w)
    ensures PointerOf(w) == PointerOf(v)
    ensures SigningBytes(w) == SigningBytes(v)
  {
    EquivReadsAlike(v, w);
    EquivAgrees(v, w);
    SigningBytesAgree(v, w);
  }
}
