/**
 * Arguments across the shared buffer of the OPFS proxy (`serialize` and `deserialize` in
 * src/vector/sqlite/assets/sqlite3-opfs-async-proxy.js). Both sides see the same bytes.
 */
module Serializer {
  import opened Prelude
  import Utf
  import opened Zstd

  /** A JavaScript number is its 64-bit pattern. */
  type Bits = n: nat | n < 0x1_0000_0000_0000_0000

  datatype Arg = Number(bits: Bits) | BigInt(n: int) | Boolean(b: bool) | Str(s: Text)

  /** What comes back; booleans come back as the numbers 0 and 1. */
  datatype Value = NumberValue(bits: Bits) | BigIntValue(n: int) | SmallInteger(n: int) | StrValue(s: Text)

  datatype Outcome = Empty | Values(values: seq<Value>) | Threw

  // ------------------------------------------------------------------------ words

  /** DataView words in the shared byte order, and TextEncoder and TextDecoder. */
  datatype View = View(word: (nat, nat) -> Bytes, fromWord: Bytes -> nat, encode: Text -> Bytes, decode: Bytes -> Text)

  /** Words have their width, and a word that is written reads back. */
  ghost predicate Lawful(k: View) {
    && (forall u: nat, w: nat :: |k.word(u, w)| == w)
    && (forall u: nat, w: nat :: (w == INT32 || w == INT64) && u < Modulus(w) ==> k.fromWord(k.word(u, w)) == u)
  }

  const INT32: nat := 4
  const INT64: nat := 8

  function Modulus(w: nat): (m: nat)
    ensures m > 0
  {
    if w == INT32 then 0x1_0000_0000 else 0x1_0000_0000_0000_0000
  }

  /** Two's complement: storing wraps, reading takes the sign from the top bit. */
  function Wrapped(n: int, w: nat): nat {
    if w == INT32 then n % 0x1_0000_0000 else n % 0x1_0000_0000_0000_0000
  }

  function Signed(u: nat, w: nat): int {
    if 2 * u >= Modulus(w) then u - Modulus(w) else u
  }

  predicate Fits(n: int, w: nat) {
    0 - Modulus(w) <= 2 * n < Modulus(w)
  }

  lemma SignedReads(n: int, w: nat)
    requires w == INT32 || w == INT64
    ensures Signed(Wrapped(n, w), w) == n <==> Fits(n, w)
  {
  }

  // -------------------------------------------------------------------- the format

  function TypeId(arg: Arg): Byte {
    match arg
    case Number(_) => 1
    case BigInt(_) => 2
    case Boolean(_) => 3
    case Str(_) => 4
  }

  function Datum(arg: Arg, k: View): Bytes {
    match arg
    case Number(bits) => k.word(bits, INT64)
    case BigInt(n) => k.word(Wrapped(n, INT64), INT64)
    case Boolean(b) => k.word(if b then 1 else 0, INT32)
    case Str(s) => k.word(Wrapped(|k.encode(s)|, INT32), INT32) + k.encode(s)
  }

  function Types(args: seq<Arg>): (ids: Bytes)
    ensures |ids| == |args|
  {
    seq(|args|, i requires 0 <= i < |args| => TypeId(args[i]))
  }

  function Data(args: seq<Arg>, k: View): Bytes {
    if args == [] then [] else Datum(args[0], k) + Data(args[1..], k)
  }

  /** The count in one byte, the types, then the data of each argument. */
  function Encoded(args: seq<Arg>, k: View): Bytes {
    if args == [] then [0] else [|args| % 256] + Types(args) + Data(args, k)
  }

  // ------------------------------------------------------------------------ reading

  /** A word at `at`, or None where DataView throws a RangeError. */
  function ReadWord(b: Bytes, at: int, w: nat, k: View): Option<nat> {
    if 0 <= at && at + w <= |b| then Some(k.fromWord(b[at..at + w])) else None
  }

  /** `slice(from, to)`: negative ends count from the back, and the range is clipped. */
  function Slice(b: Bytes, from: nat, to: int): Bytes {
    var end := if to < 0 then Max(|b| + to, 0) else Min(to, |b|);
    if from < end then b[from..end] else []
  }

  function WidthOf(id: Byte): nat {
    if id == 1 || id == 2 then INT64 else INT32
  }

  /** The value of a fixed-size word. */
  function WordValue(u: nat, id: Byte): Value {
    if id == 1 then NumberValue(u % 0x1_0000_0000_0000_0000)
    else if id == 2 then BigIntValue(Signed(u, INT64))
    else SmallInteger(Signed(u, INT32))
  }

  function ReadString(b: Bytes, at: nat, n: int, k: View): Value {
    StrValue(k.decode(Slice(b, at, at + n)))
  }

  function ReadValue(b: Bytes, id: Byte, at: int, k: View): Option<(Value, int)> {
    match ReadWord(b, at, WidthOf(id), k)
    case None => None
    case Some(u) =>
      var next := at + WidthOf(id);
      if id == 4 then Some((ReadString(b, next, Signed(u, INT32), k), next + Signed(u, INT32)))
      else Some((WordValue(u, id), next))
  }

  type Reader = (Byte, int) -> Option<(Value, int)>

  function ReaderOf(b: Bytes, k: View): Reader {
    (id: Byte, at: int) => ReadValue(b, id, at, k)
  }

  /** The values of all types listed, and where reading stopped. */
  function ReadValues(read: Reader, ids: Bytes, at: int): Option<(seq<Value>, int)> {
    if ids == [] then Some(([], at))
    else
      match read(ids[0], at)
      case None => None
      case Some((value, next)) =>
        match ReadValues(read, ids[1..], next)
        case None => None
        case Some((values, end)) => Some(([value] + values, end))
  }

  predicate ValidIds(ids: Bytes) {
    forall i :: 0 <= i < |ids| ==> 1 <= ids[i] <= 4
  }

  /** The types listed in the header, or None when one is invalid or missing. */
  function HeaderIds(b: Bytes): Option<Bytes>
    requires b != []
  {
    if b[0] + 1 <= |b| && ValidIds(b[1..b[0] + 1]) then Some(b[1..b[0] + 1]) else None
  }

  function Deserialized(b: Bytes, k: View): Outcome {
    if b == [] || b[0] == 0 then Empty
    else
      match HeaderIds(b)
      case None => Threw
      case Some(ids) =>
        match ReadValues(ReaderOf(b, k), ids, |ids| + 1)
        case None => Threw
        case Some((values, _)) => Values(values)
  }

  // ----------------------------------------------------------------------- in place

  /** `viewU8.set` and the DataView setters: all of the bytes, or a RangeError and none. */
  method PutBytes(view: array<Byte>, at: nat, bytes: Bytes) returns (ok: bool)
    modifies view
    ensures ok <==> at + |bytes| <= view.Length
    ensures ok ==> view[..] == old(view[..at]) + bytes + old(view[at + |bytes|..])
    ensures !ok ==> view[..] == old(view[..])
  {
    if at + |bytes| > view.Length {
      return false;
    }
    forall i | 0 <= i < |bytes| {
      view[at + i] := bytes[i];
    }
    return true;
  }

  /** Single elements past the end are ignored. */
  method PutElement(view: array<Byte>, at: nat, byte: Byte)
    modifies view
    ensures forall j :: 0 <= j < view.Length ==> view[j] == if j == at then byte else old(view[j])
  {
    if at < view.Length {
      view[at] := byte;
    }
  }

  lemma {:induction false} DataGrows(args: seq<Arg>, i: nat, k: View)
    requires i < |args|
    ensures Data(args[..i + 1], k) == Data(args[..i], k) + Datum(args[i], k)
  {
    if i == 0 {
      assert args[..1] == [args[0]] && args[..1][1..] == [] && args[..0] == [];
    } else {
      DataGrows(args[1..], i - 1, k);
      assert args[..i + 1][1..] == args[1..][..i] && args[..i][1..] == args[1..][..i - 1];
    }
  }

  lemma DatumIsNotEmpty(arg: Arg, k: View)
    requires Lawful(k)
    ensures Datum(arg, k) != []
  {
  }

  lemma {:induction false} DataIsLong(args: seq<Arg>, i: nat, k: View)
    requires Lawful(k)
    requires i <= |args|
    ensures |Data(args[..i], k)| <= |Data(args, k)|
    ensures i < |args| ==> |Data(args[..i], k)| < |Data(args, k)|
    decreases |args| - i
  {
    if i < |args| {
      DataGrows(args, i, k);
      DatumIsNotEmpty(args[i], k);
      DataIsLong(args, i + 1, k);
    } else {
      assert args[..i] == args;
    }
  }

  /** `serialize`: header and types first, then each datum where the one before it ended. */
  method Serialize(view: array<Byte>, args: seq<Arg>, k: View) returns (ok: bool)
    requires view.Length > 0 && Lawful(k)
    modifies view
    ensures ok <==> |Encoded(args, k)| <= view.Length
    ensures ok ==> view[..] == Encoded(args, k) + old(view[|Encoded(args, k)|..])
  {
    if args == [] {
      PutElement(view, 0, 0);
      return true;
    }
    var offset := WriteHeader(view, args);
    DatumIsNotEmpty(args[0], k);
    ok := WriteData(view, offset, args, k);
    if ok {
      var end := offset + |Data(args, k)|;
      assert old(view[..])[offset..][end - offset..] == old(view[..])[end..];
    }
  }

  /** Writing `y` right behind `x` leaves `x + y` in the buffer. */
  lemma Spliced(all: Bytes, front: Bytes, x: Bytes, y: Bytes, before: Bytes, after: Bytes)
    requires |front| + |x| + |y| <= |all| && before == front + x + all[|front| + |x|..]
    requires after == before[..|front| + |x|] + y + before[|front| + |x| + |y|..]
    ensures after == front + (x + y) + all[|front| + |x| + |y|..]
  {
    assert before[..|front| + |x|] == front + x;
    assert before[|front| + |x| + |y|..] == all[|front| + |x| + |y|..];
  }

  /** One datum behind those already written at `at`. */
  method WriteNext(view: array<Byte>, at: nat, args: seq<Arg>, i: nat, offset: nat, k: View, ghost all: Bytes)
      returns (ok: bool, next: nat)
    requires i < |args| && offset == at + |Data(args[..i], k)| && |all| == view.Length
    requires offset <= view.Length ==> view[..] == all[..at] + Data(args[..i], k) + all[offset..]
    modifies view
    ensures next == at + |Data(args[..i + 1], k)|
    ensures ok <==> next <= view.Length
    ensures ok ==> view[..] == all[..at] + Data(args[..i + 1], k) + all[next..]
  {
    ghost var written, before := Data(args[..i], k), view[..];
    DataGrows(args, i, k);
    ghost var datum := Datum(args[i], k);
    ok := PutDatum(view, offset, args[i], k);
    next := offset + |Datum(args[i], k)|;
    if ok {
      assert before[..offset] + datum + before[next..] == view[..];
      Spliced(all, all[..at], written, datum, before, view[..]);
    }
  }

  method WriteData(view: array<Byte>, at: nat, args: seq<Arg>, k: View) returns (ok: bool)
    requires Lawful(k) && args != []
    modifies view
    ensures ok <==> at + |Data(args, k)| <= view.Length
    ensures ok ==> view[..] == old(view[..at]) + Data(args, k) + old(view[at + |Data(args, k)|..])
  {
    ghost var all := view[..];
    var offset := at;
    for i := 0 to |args|
      invariant offset == at + |Data(args[..i], k)|
      invariant i > 0 ==> offset <= view.Length
      invariant offset <= view.Length ==> view[..] == all[..at] + Data(args[..i], k) + all[offset..]
    {
      var put;
      put, offset := WriteNext(view, at, args, i, offset, k, all);
      if !put {
        DataIsLong(args, i + 1, k);
        return false;
      }
    }
    assert args[..|args|] == args;
    ok := true;
  }

  /** The count and the type of each argument, one element at a time; past the end they are ignored. */
  method WriteHeader(view: array<Byte>, args: seq<Arg>) returns (offset: nat)
    modifies view
    ensures offset == |args| + 1
    ensures offset <= view.Length ==> view[..] == [|args| % 256] + Types(args) + old(view[..])[offset..]
  {
    ghost var all, header := view[..], [|args| % 256] + Types(args);
    PutElement(view, 0, |args| % 256);
    for i := 0 to |args|
      invariant forall j :: 0 <= j < i + 1 && j < view.Length ==> view[j] == header[j]
      invariant forall j :: i + 1 <= j < view.Length ==> view[j] == all[j]
    {
      PutElement(view, i + 1, TypeId(args[i]));
    }
    offset := |args| + 1;
    if offset <= view.Length {
      assert view[..offset] == header && view[offset..] == all[offset..];
      assert view[..] == view[..offset] + view[offset..];
    }
  }

  /** A word, or for a string its length and then its bytes. */
  method PutDatum(view: array<Byte>, offset: nat, arg: Arg, k: View) returns (ok: bool)
    modifies view
    ensures ok <==> offset + |Datum(arg, k)| <= view.Length
    ensures ok ==> view[..] == old(view[..offset]) + Datum(arg, k) + old(view[offset + |Datum(arg, k)|..])
  {
    if arg.Str? {
      var bytes := k.encode(arg.s);
      ok := PutBoth(view, offset, k.word(Wrapped(|bytes|, INT32), INT32), bytes);
    } else {
      ok := PutBytes(view, offset, Datum(arg, k));
    }
  }

  method PutBoth(view: array<Byte>, offset: nat, length: Bytes, bytes: Bytes) returns (ok: bool)
    modifies view
    ensures ok <==> offset + |length + bytes| <= view.Length
    ensures ok ==> view[..] == old(view[..offset]) + (length + bytes) + old(view[offset + |length + bytes|..])
  {
    ok := PutBytes(view, offset, length);
    if ok {
      var middle := offset + |length|;
      ghost var before := view[..];
      ok := PutBytes(view, middle, bytes);
      if ok {
        Spliced(old(view[..]), old(view[..offset]), length, bytes, before, view[..]);
      }
    }
  }

  method ReadIds(bytes: Bytes) returns (ids: Option<Bytes>)
    requires bytes != []
    ensures ids == HeaderIds(bytes)
  {
    var argc, listed: Bytes := bytes[0], [];
    for i := 0 to argc
      invariant i + 1 <= |bytes| && listed == bytes[1..i + 1] && ValidIds(listed)
    {
      if i + 1 >= |bytes| {
        return None;
      }
      if !(1 <= bytes[i + 1] <= 4) {
        assert argc + 1 <= |bytes| ==> bytes[1..argc + 1][i] == bytes[i + 1];
        return None;
      }
      listed := listed + [bytes[i + 1]];
    }
    return Some(listed);
  }

  /** Reading some values and then the rest. */
  function Joined(front: seq<Value>, rest: Option<(seq<Value>, int)>): Option<(seq<Value>, int)> {
    match rest
    case None => None
    case Some((values, end)) => Some((front + values, end))
  }

  lemma JoinedStep(read: Reader, ids: Bytes, i: nat, offset: int, front: seq<Value>)
    requires i < |ids|
    ensures var one := read(ids[i], offset);
            Joined(front, ReadValues(read, ids[i..], offset)) ==
            if one.None? then None
            else Joined(front + [one.value.0], ReadValues(read, ids[i + 1..], one.value.1))
  {
    var one := read(ids[i], offset);
    assert ids[i..][0] == ids[i] && ids[i..][1..] == ids[i + 1..];
    if one.Some? && ReadValues(read, ids[i + 1..], one.value.1).Some? {
      var rest := ReadValues(read, ids[i + 1..], one.value.1).value.0;
      assert front + ([one.value.0] + rest) == front + [one.value.0] + rest;
    }
  }

  method ReadAll(read: Reader, ids: Bytes, at: int) returns (r: Option<seq<Value>>)
    ensures r.Some? <==> ReadValues(read, ids, at).Some?
    ensures r.Some? ==> r.value == ReadValues(read, ids, at).value.0
  {
    var values: seq<Value>, offset: int := [], at;
    assert ids[0..] == ids;
    for i := 0 to |ids|
      invariant Joined([], ReadValues(read, ids, at)) == Joined(values, ReadValues(read, ids[i..], offset))
    {
      var one := read(ids[i], offset);
      JoinedStep(read, ids, i, offset, values);
      if one.None? {
        return None;
      }
      values, offset := values + [one.value.0], one.value.1;
    }
    assert values + [] == values;
    return Some(values);
  }

  /** `deserialize`: the types, then the values by a running offset; on request the buffer is cleared. */
  method Deserialize(view: array<Byte>, k: View, clear: bool) returns (r: Outcome)
    requires view.Length > 0
    modifies view
    ensures r == Deserialized(old(view[..]), k)
    ensures !r.Threw? && clear ==> view[..] == [0] + old(view[1..])
    ensures r.Threw? || !clear ==> view[..] == old(view[..])
  {
    var bytes := view[..];
    r := Empty;
    if bytes[0] != 0 {
      var ids := ReadIds(bytes);
      if ids.None? {
        return Threw;
      }
      var values := ReadAll(ReaderOf(bytes, k), ids.value, |ids.value| + 1);
      if values.None? {
        return Threw;
      }
      r := Values(values.value);
    }
    if clear {
      view[0] := 0;
    }
  }

  // --------------------------------------------------------------------- round trip

  /** What reading back what was written gives. */
  function Returned(arg: Arg, k: View): Value {
    match arg
    case Number(bits) => NumberValue(bits)
    case BigInt(n) => BigIntValue(Signed(Wrapped(n, INT64), INT64))
    case Boolean(b) => SmallInteger(if b then 1 else 0)
    case Str(s) => StrValue(k.decode(k.encode(s)))
  }

  function AllReturned(args: seq<Arg>, k: View): (values: seq<Value>)
    ensures |values| == |args|
  {
    seq(|args|, i requires 0 <= i < |args| => Returned(args[i], k))
  }

  /** The same argument, booleans as 0 and 1. */
  function Itself(arg: Arg): Value {
    match arg
    case Number(bits) => NumberValue(bits)
    case BigInt(n) => BigIntValue(n)
    case Boolean(b) => SmallInteger(if b then 1 else 0)
    case Str(s) => StrValue(s)
  }

  function AllItself(args: seq<Arg>): (values: seq<Value>)
    ensures |values| == |args|
  {
    seq(|args|, i requires 0 <= i < |args| => Itself(args[i]))
  }

  predicate Int64(n: int) {
    -0x8000_0000_0000_0000 <= n < 0x8000_0000_0000_0000
  }

  /** A bigint of 64 bits, a string without a leading byte order mark. */
  predicate Faithful(arg: Arg) {
    match arg
    case BigInt(n) => Int64(n)
    case Str(s) => s == [] || s[0] != Utf.BOM
    case _ => true
  }

  /** What the header's int32 length can say. */
  predicate Representable(arg: Arg, k: View) {
    arg.Str? ==> |k.encode(arg.s)| < 0x8000_0000
  }

  lemma WordReads(b: Bytes, at: nat, id: Byte, u: nat, k: View)
    requires Lawful(k) && u < Modulus(WidthOf(id)) && At(b, at, k.word(u, WidthOf(id)))
    ensures ReadWord(b, at, WidthOf(id), k) == Some(u)
  {
    assert |k.word(u, WidthOf(id))| == WidthOf(id);
    assert k.fromWord(k.word(u, WidthOf(id))) == u;
  }

  lemma NumberReads(b: Bytes, at: nat, bits: Bits, k: View)
    requires Lawful(k) && At(b, at, Datum(Number(bits), k))
    ensures ReadValue(b, 1, at, k) == Some((NumberValue(bits), at + |Datum(Number(bits), k)|))
  {
    WordReads(b, at, 1, bits, k);
  }

  lemma BigIntReads(b: Bytes, at: nat, n: int, k: View)
    requires Lawful(k) && At(b, at, Datum(BigInt(n), k))
    ensures ReadValue(b, 2, at, k) == Some((Returned(BigInt(n), k), at + |Datum(BigInt(n), k)|))
  {
    WordReads(b, at, 2, Wrapped(n, INT64), k);
  }

  lemma BooleanReads(b: Bytes, at: nat, v: bool, k: View)
    requires Lawful(k) && At(b, at, Datum(Boolean(v), k))
    ensures ReadValue(b, 3, at, k) == Some((Returned(Boolean(v), k), at + |Datum(Boolean(v), k)|))
  {
    WordReads(b, at, 3, if v then 1 else 0, k);
  }

  lemma SliceReads(b: Bytes, at: nat, piece: Bytes)
    requires At(b, at, piece)
    ensures Slice(b, at, at + |piece|) == piece
  {
  }

  lemma StrReads(b: Bytes, at: nat, s: Text, k: View)
    requires Lawful(k) && Representable(Str(s), k) && At(b, at, Datum(Str(s), k))
    ensures ReadValue(b, 4, at, k) == Some((Returned(Str(s), k), at + |Datum(Str(s), k)|))
  {
    var bytes := k.encode(s);
    var length := k.word(|bytes|, INT32);
    assert Wrapped(|bytes|, INT32) == |bytes| && Signed(|bytes|, INT32) == |bytes|;
    AtSplits(b, at, length, bytes);
    WordReads(b, at, 4, |bytes|, k);
    SliceReads(b, at + INT32, bytes);
  }

  lemma DatumReads(b: Bytes, at: nat, arg: Arg, k: View)
    requires Lawful(k) && Representable(arg, k) && At(b, at, Datum(arg, k))
    ensures ReadValue(b, TypeId(arg), at, k) == Some((Returned(arg, k), at + |Datum(arg, k)|))
  {
    match arg
    case Number(bits) => NumberReads(b, at, bits, k);
    case BigInt(n) => BigIntReads(b, at, n, k);
    case Boolean(v) => BooleanReads(b, at, v, k);
    case Str(s) => StrReads(b, at, s, k);
  }

  /** Values that are read one behind the other are read as a list. */
  lemma {:induction false} ListReads(read: Reader, ids: Bytes, values: seq<Value>, ends: seq<int>)
    requires |values| == |ids| && |ends| == |ids| + 1
    requires forall i :: 0 <= i < |ids| ==> read(ids[i], ends[i]) == Some((values[i], ends[i + 1]))
    ensures ReadValues(read, ids, ends[0]) == Some((values, ends[|ids|]))
  {
    if ids != [] {
      forall i | 0 <= i < |ids| - 1
        ensures read(ids[1..][i], ends[1..][i]) == Some((values[1..][i], ends[1..][i + 1]))
      {
        assert read(ids[i + 1], ends[i + 1]) == Some((values[i + 1], ends[i + 2]));
      }
      ListReads(read, ids[1..], values[1..], ends[1..]);
      assert [values[0]] + values[1..] == values;
    }
  }

  lemma {:induction false} DataSplits(args: seq<Arg>, i: nat, k: View)
    requires i <= |args|
    ensures Data(args, k) == Data(args[..i], k) + Data(args[i..], k)
    decreases |args| - i
  {
    if i == |args| {
      assert args[..i] == args && args[i..] == [];
    } else {
      DataSplits(args, i + 1, k);
      DataGrows(args, i, k);
      assert args[i..][1..] == args[i + 1..] && args[i..][0] == args[i];
    }
  }

  lemma DatumStands(b: Bytes, at: nat, args: seq<Arg>, i: nat, k: View)
    requires i < |args| && At(b, at, Data(args, k))
    ensures At(b, at + |Data(args[..i], k)|, Datum(args[i], k))
  {
    DataSplits(args, i, k);
    AtSplits(b, at, Data(args[..i], k), Data(args[i..], k));
    assert args[i..][0] == args[i];
    AtSplits(b, at + |Data(args[..i], k)|, Datum(args[i], k), Data(args[i..][1..], k));
  }

  lemma EntryReads(b: Bytes, at: nat, args: seq<Arg>, i: nat, k: View)
    requires Lawful(k) && At(b, at, Data(args, k)) && i < |args| && Representable(args[i], k)
    ensures ReadValue(b, TypeId(args[i]), at + |Data(args[..i], k)|, k) ==
            Some((Returned(args[i], k), at + |Data(args[..i + 1], k)|))
  {
    DatumStands(b, at, args, i, k);
    DatumReads(b, at + |Data(args[..i], k)|, args[i], k);
    DataGrows(args, i, k);
  }

  lemma ReaderReads(b: Bytes, k: View, id: Byte, at: int)
    ensures ReaderOf(b, k)(id, at) == ReadValue(b, id, at, k)
  {
  }

  /** Where each datum begins, and where the last one ends. */
  function Ends(at: nat, args: seq<Arg>, k: View): (ends: seq<int>)
    ensures |ends| == |args| + 1
  {
    seq(|args| + 1, i requires 0 <= i < |args| + 1 => at + |Data(args[..i], k)|)
  }

  lemma DataReads(b: Bytes, at: nat, args: seq<Arg>, k: View)
    requires Lawful(k) && At(b, at, Data(args, k))
    requires forall i :: 0 <= i < |args| ==> Representable(args[i], k)
    ensures ReadValues(ReaderOf(b, k), Types(args), at) == Some((AllReturned(args, k), at + |Data(args, k)|))
  {
    var read := ReaderOf(b, k);
    forall i | 0 <= i < |args| ensures ReadsEntry(read, at, args, i, k) {
      EntryReads(b, at, args, i, k);
      ReaderReads(b, k, TypeId(args[i]), at + |Data(args[..i], k)|);
    }
    EntriesRead(read, at, args, k);
  }

  /** The reader finds the i-th argument between the ends of its neighbours. */
  predicate ReadsEntry(read: Reader, at: nat, args: seq<Arg>, i: nat, k: View)
    requires i < |args|
  {
    read(TypeId(args[i]), at + |Data(args[..i], k)|) == Some((Returned(args[i], k), at + |Data(args[..i + 1], k)|))
  }

  lemma EntriesRead(read: Reader, at: nat, args: seq<Arg>, k: View)
    requires forall i :: 0 <= i < |args| ==> ReadsEntry(read, at, args, i, k)
    ensures ReadValues(read, Types(args), at) == Some((AllReturned(args, k), at + |Data(args, k)|))
  {
    var ends := Ends(at, args, k);
    forall i | 0 <= i < |args|
      ensures read(Types(args)[i], ends[i]) == Some((AllReturned(args, k)[i], ends[i + 1]))
    {
      assert ReadsEntry(read, at, args, i, k);
    }
    ListReads(read, Types(args), AllReturned(args, k), ends);
    assert args[..|args|] == args && args[..0] == [];
  }

  lemma HeaderReads(args: seq<Arg>, body: Bytes)
    requires 1 <= |args| <= 255
    ensures var b := [|args| % 256] + Types(args) + body;
            b[0] == |args| && HeaderIds(b) == Some(Types(args))
  {
    var b := [|args| % 256] + Types(args) + body;
    assert b[1..|args| + 1] == Types(args);
  }

  /** Between 1 and 255 arguments come back in order, from exactly the bytes that were written. */
  lemma ReadsBackWhatWasWritten(args: seq<Arg>, rest: Bytes, k: View)
    requires Lawful(k)
    requires 1 <= |args| <= 255 && forall i :: 0 <= i < |args| ==> Representable(args[i], k)
    ensures var b := Encoded(args, k) + rest;
            && Deserialized(b, k) == Values(AllReturned(args, k))
            && ReadValues(ReaderOf(b, k), Types(args), |args| + 1) == Some((AllReturned(args, k), |Encoded(args, k)|))
  {
    var header, data := [|args| % 256] + Types(args), Data(args, k);
    var b := Encoded(args, k) + rest;
    assert b == header + (data + rest);
    HeaderReads(args, data + rest);
    assert b[|header|..|header| + |data|] == data;
    DataReads(b, |header|, args, k);
  }

  // ----------------------------------------------------------- the platform's own view

  function Reversed(b: Bytes): (r: Bytes)
    ensures |r| == |b|
  {
    seq(|b|, i requires 0 <= i < |b| => b[|b| - 1 - i])
  }

  lemma ReversedTwice(b: Bytes)
    ensures Reversed(Reversed(b)) == b
  {
  }

  /** A DataView word in either byte order. */
  function NativeWord(u: nat, w: nat, little: bool): (b: Bytes)
    ensures |b| == w
  {
    if little then ToLE(u, w) else Reversed(ToLE(u, w))
  }

  function FromNativeWord(b: Bytes, little: bool): nat {
    FromLE(if little then b else Reversed(b))
  }

  function Native(little: bool): View {
    View((u: nat, w: nat) => NativeWord(u, w, little), (b: Bytes) => FromNativeWord(b, little),
         (t: Text) => Utf.Encode(t), (b: Bytes) => Utf.Decode(b))
  }

  lemma NativeWordReads(u: nat, w: nat, little: bool)
    requires u < Pow256(w)
    ensures FromNativeWord(NativeWord(u, w, little), little) == u
  {
    FromToLE(u, w);
    ReversedTwice(ToLE(u, w));
  }

  lemma NativeIsLawful(little: bool)
    ensures Lawful(Native(little))
  {
    WordSizes();
    forall u: nat, w: nat | (w == INT32 || w == INT64) && u < Modulus(w)
      ensures Native(little).fromWord(Native(little).word(u, w)) == u
    {
      NativeWordReads(u, w, little);
    }
  }

  lemma WordSizes()
    ensures Pow256(INT32) == Modulus(INT32) && Pow256(INT64) == Modulus(INT64)
  {
    assert Pow256(5) == 256 * Pow256(4) && Pow256(6) == 256 * Pow256(5) && Pow256(7) == 256 * Pow256(6);
    SmallPowers();
  }

  /** Well-formed text of a length that fits. */
  predicate Textual(arg: Arg) {
    arg.Str? ==> Utf.WellFormed(arg.s) && |Utf.Encode(arg.s)| < 0x8000_0000
  }

  lemma ReturnedIsItself(arg: Arg, little: bool)
    requires Textual(arg)
    ensures Returned(arg, Native(little)) == Itself(arg) <==> Faithful(arg)
  {
    match arg
    case BigInt(n) => SignedReads(n, INT64);
    case Str(s) => Utf.RoundTripsUnlessMarked(s);
    case _ =>
  }

  /** They are the same list exactly when every bigint has 64 bits and no string begins with U+FEFF. */
  lemma RoundTripsExactly(args: seq<Arg>, rest: Bytes, little: bool)
    requires 1 <= |args| <= 255 && forall i :: 0 <= i < |args| ==> Textual(args[i])
    ensures Deserialized(Encoded(args, Native(little)) + rest, Native(little)) == Values(AllItself(args)) <==>
            forall i :: 0 <= i < |args| ==> Faithful(args[i])
  {
    NativeIsLawful(little);
    ReadsBackWhatWasWritten(args, rest, Native(little));
    forall i | 0 <= i < |args|
      ensures AllReturned(args, Native(little))[i] == AllItself(args)[i] <==> Faithful(args[i])
    {
      ReturnedIsItself(args[i], little);
    }
  }

  /** Clearing leaves nothing to read, and so does a list of exactly 256 arguments: the count wraps. */
  lemma NothingToRead(rest: Bytes, args: seq<Arg>, k: View)
    requires |args| == 256
    ensures Deserialized([0] + rest, k) == Empty
    ensures Deserialized(Encoded(args, k) + rest, k) == Empty
  {
    assert (Encoded(args, k) + rest)[0] == 0;
  }
}
