/**
 * The Zstandard frame walk that establishes a chunk's decompressed size before any byte reaches
 * the decoder (src/engine/zstd.ts), against an encoder for the frame layout of section 3.1.1 of
 * RFC 8878.
 */
module Zstd {
  import opened Prelude

  const MAGIC: Bytes := [0x28, 0xB5, 0x2F, 0xFD]

  // ------------------------------------------------------------ little endian

  function Pow256(w: nat): (p: nat)
    ensures p > 0
  {
    if w == 0 then 1 else 256 * Pow256(w - 1)
  }

  function FromLE(b: Bytes): nat {
    if b == [] then 0 else b[0] + 256 * FromLE(b[1..])
  }

  function ToLE(v: nat, w: nat): (b: Bytes)
    ensures |b| == w
  {
    if w == 0 then [] else [v % 256] + ToLE(v / 256, w - 1)
  }

  lemma {:induction false} FromToLE(v: nat, w: nat)
    requires v < Pow256(w)
    ensures FromLE(ToLE(v, w)) == v
  {
    if w > 0 {
      FromToLE(v / 256, w - 1);
      assert ToLE(v, w)[1..] == ToLE(v / 256, w - 1);
    }
  }

  lemma {:induction false} ToFromLE(b: Bytes)
    ensures FromLE(b) < Pow256(|b|)
    ensures ToLE(FromLE(b), |b|) == b
  {
    if b != [] {
      ToFromLE(b[1..]);
      assert [b[0]] + b[1..] == b;
    }
  }

  // ------------------------------------------------------- JavaScript numbers

  const TWO_53: nat := 0x20_0000_0000_0000

  /** The spacing of doubles around `v`. */
  function Ulp(v: nat): (u: nat)
    ensures u > 0
  {
    if v < TWO_53 then 1 else 2 * Ulp(v / 2)
  }

  /** `Number(bigint)`: the nearest double, ties to even. */
  function ToNumber(v: nat): nat {
    Rounded(v / Ulp(v), v % Ulp(v), Ulp(v))
  }

  /** The multiple of `u` that `q * u + r` is rounded to. */
  function Rounded(q: nat, r: nat, u: nat): nat {
    if 2 * r < u || (2 * r == u && q % 2 == 0) then q * u else (q + 1) * u
  }

  lemma {:induction false} UlpKeepsPrecision(v: nat)
    requires v >= TWO_53
    ensures Ulp(v) >= 2 && v / Ulp(v) >= TWO_53 / 2
  {
    var u := Ulp(v / 2);
    if v / 2 >= TWO_53 {
      UlpKeepsPrecision(v / 2);
    }
    DivDiv(v, u);
  }

  lemma DivDiv(v: nat, u: nat)
    requires u > 0
    ensures v / (2 * u) == (v / 2) / u
  {
    var q := (v / 2) / u;
    var r := (v / 2) % u;
    assert v / 2 == q * u + r;
    assert v == q * (2 * u) + (2 * r + v % 2);
    QuotientIs(v, 2 * u, q, 2 * r + v % 2);
  }

  lemma QuotientIs(v: nat, d: nat, q: nat, r: nat)
    requires d > 0 && v == q * d + r && r < d
    ensures v / d == q
  {
    var k := v / d;
    assert k * d + v % d == v;
    assert (q - k) * d == q * d - k * d;
    assert (k - q) * d == k * d - q * d;
    if k < q {
      MulGrows(q - k, d);
    } else if k > q {
      MulGrows(k - q, d);
    }
  }

  lemma {:induction false} MulGrows(k: nat, d: nat)
    requires k >= 1
    ensures k * d >= d
  {
    if k > 1 {
      MulGrows(k - 1, d);
      assert k * d == (k - 1) * d + d;
    }
  }

  lemma ProductAtLeast(q: nat, u: nat, a: nat, b: nat)
    requires q >= a && u >= b
    ensures q * u >= a * b
  {
    assert q * u == a * u + (q - a) * u;
    assert a * u == a * b + a * (u - b);
  }

  lemma SmallStaysItself(v: nat)
    requires v < TWO_53
    ensures ToNumber(v) == v
  {
    assert Ulp(v) == 1;
    assert v / 1 == v && v % 1 == 0;
  }

  lemma LargeStaysLarge(v: nat)
    requires v >= TWO_53
    ensures ToNumber(v) >= TWO_53
  {
    UlpKeepsPrecision(v);
    var u, q := Ulp(v), v / Ulp(v);
    ProductAtLeast(q, u, TWO_53 / 2, 2);
    ProductAtLeast(q + 1, u, TWO_53 / 2, 2);
  }

  /** A converted size below 2^53 is exact: rounding never brings a larger one into that range. */
  lemma SmallNumbersAreExact(v: nat, n: nat)
    requires n < TWO_53
    ensures ToNumber(v) == n <==> v == n
  {
    if v < TWO_53 {
      SmallStaysItself(v);
    } else {
      LargeStaysLarge(v);
    }
  }

  lemma RoundedExactly(v: nat, q: nat, r: nat, u: nat)
    requires v == q * u + r && r < u
    ensures Rounded(q, r, u) == v <==> r == 0
  {
    assert (q + 1) * u == q * u + u;
  }

  lemma QuotientAndRest(v: nat, u: nat)
    requires u > 0
    ensures v == v / u * u + v % u && v % u < u
  {
  }

  lemma RoundedMultiples(v: nat, u: nat, rounded: nat)
    requires u > 0 && rounded == Rounded(v / u, v % u, u)
    ensures rounded == v <==> v % u == 0
  {
    var q, r := v / u, v % u;
    QuotientAndRest(v, u);
    RoundedExactly(v, q, r, u);
  }

  /** A number is its own nearest double exactly when it is a multiple of the spacing around it. */
  lemma ExactlyTheMultiples(v: nat)
    ensures ToNumber(v) == v <==> v % Ulp(v) == 0
  {
    var u, rounded := Ulp(v), ToNumber(v);
    assert rounded == Rounded(v / u, v % u, u);
    RoundedMultiples(v, u, rounded);
  }

  // ---------------------------------------------------------------- the parser

  datatype Header = Header(declaredSize: Option<nat>, bodyOffset: nat, hasChecksum: bool)

  /** Frame_Content_Size field width by flag; flag 0 means one byte in single-segment frames. */
  function ContentSizeWidth(flag: nat, singleSegment: bool): nat {
    match flag
    case 0 => if singleSegment then 1 else 0
    case 1 => 2
    case 2 => 4
    case _ => 8
  }

  function DictionaryIdWidth(flag: nat): nat {
    match flag
    case 0 => 0
    case 1 => 1
    case 2 => 2
    case _ => 4
  }

  /** The 2-byte form stores the size less 256; the 8-byte form is converted to a number. */
  function ReadContentSize(field: Bytes): nat {
    match |field|
    case 2 => FromLE(field) + 256
    case 8 => ToNumber(FromLE(field))
    case _ => FromLE(field)
  }

  /** Descriptor bits: 7-6 size flag, 5 single segment, 4-3 zero, 2 checksum, 1-0 dictionary. */
  function ParseHeader(b: Bytes): Option<Header> {
    if |b| < 6 || b[..4] != MAGIC then None
    else
      var descriptor := b[4];
      if descriptor / 8 % 4 != 0 then None
      else
        var single := descriptor / 32 % 2 == 1;
        var width := ContentSizeWidth(descriptor / 64, single);
        var offset := 5 + (if single then 0 else 1) + DictionaryIdWidth(descriptor % 4);
        if |b| < offset + width then None
        else Some(Header(
                    if width == 0 then None else Some(ReadContentSize(b[offset..offset + width])),
                    offset + width,
                    descriptor / 4 % 2 == 1))
  }

  /** Where the block at `at` ends: None when it is reserved or runs past the end. */
  function BlockEnd(b: Bytes, at: nat): Option<nat> {
    if at + 3 > |b| then None
    else
      var raw := FromLE(b[at..at + 3]);
      var kind := raw / 2 % 4;
      var end := at + 3 + (if kind == 1 then 1 else raw / 8);
      if kind == 3 || end > |b| then None else Some(end)
  }

  predicate LastBlock(b: Bytes, at: nat)
    requires at + 3 <= |b|
  {
    FromLE(b[at..at + 3]) % 2 == 1
  }

  /** The end of the last block, walking from `at`. */
  function WalkBlocks(b: Bytes, at: nat): Option<nat>
    decreases |b| - at
  {
    match BlockEnd(b, at)
    case None => None
    case Some(end) => if LastBlock(b, at) then Some(end) else WalkBlocks(b, end)
  }

  function FrameLength(b: Bytes, header: Header): Option<nat> {
    match WalkBlocks(b, header.bodyOffset)
    case None => None
    case Some(end) => Some(end + if header.hasChecksum then 4 else 0)
  }

  /** The block walk as written: one pass over the 3-byte headers. */
  method FrameByteLength(b: Bytes, header: Header) returns (length: Option<nat>)
    ensures length == FrameLength(b, header)
  {
    var at := header.bodyOffset;
    while true
      invariant WalkBlocks(b, header.bodyOffset) == WalkBlocks(b, at)
      decreases |b| - at
    {
      if at + 3 > |b| {
        return None;
      }
      assert b[at..at + 3] == [b[at], b[at + 1], b[at + 2]];
      ThreeBytes(b[at], b[at + 1], b[at + 2]);
      var raw: int := b[at] + 256 * (b[at + 1] as int) + 65536 * (b[at + 2] as int);
      var blockType := raw / 2 % 4;
      if blockType == 3 {
        return None;
      }
      var here := at;
      at := at + 3 + if blockType == 1 then 1 else raw / 8;
      if at > |b| {
        return None;
      }
      if raw % 2 == 1 {
        assert LastBlock(b, here);
        return Some(at + if header.hasChecksum then 4 else 0);
      }
    }
  }

  lemma ThreeBytes(x: Byte, y: Byte, z: Byte)
    ensures FromLE([x, y, z]) == x + y * 256 + z * 65536
  {
    assert [x, y, z][1..] == [y, z] && [y, z][1..] == [z] && [z][1..] == [];
    assert FromLE([z]) == z;
    assert FromLE([y, z]) == y + 256 * z;
  }

  /** The size the bytes bindingly declare, or None when no bound can be established. */
  function DeclaredContentSize(b: Bytes): Option<nat> {
    match ParseHeader(b)
    case None => None
    case Some(header) =>
      if header.declaredSize.None? || FrameLength(b, header) != Some(|b|) then None
      else header.declaredSize
  }

  // --------------------------------------------------------------- the encoder

  /** A block: `body` is the whole content, or the single repeated byte of an RLE block. */
  datatype Block = Raw(body: Bytes) | Rle(count: nat, body: Bytes) | Compressed(body: Bytes)

  const MAX_BLOCK_FIELD: nat := 0x20_0000

  predicate ValidBlock(k: Block) {
    match k
    case Raw(body) => |body| < MAX_BLOCK_FIELD
    case Rle(count, body) => count < MAX_BLOCK_FIELD && |body| == 1
    case Compressed(body) => |body| < MAX_BLOCK_FIELD
  }

  function BlockField(k: Block): nat {
    match k
    case Raw(body) => |body| * 8
    case Rle(count, body) => 2 + count * 8
    case Compressed(body) => 4 + |body| * 8
  }

  function EncodeBlock(k: Block, last: bool): Bytes {
    ToLE(BlockField(k) + if last then 1 else 0, 3) + k.body
  }

  function EncodeBlocks(blocks: seq<Block>): Bytes
    requires blocks != []
  {
    if |blocks| == 1 then EncodeBlock(blocks[0], true)
    else EncodeBlock(blocks[0], false) + EncodeBlocks(blocks[1..])
  }

  /** Every choice section 3.1.1 leaves to an encoder of a frame that declares its size. */
  datatype Frame = Frame(
    singleSegment: bool, sizeFlag: nat, dictionaryFlag: nat,
    window: Bytes, dictionaryId: Bytes, size: nat,
    blocks: seq<Block>, checksum: Option<Bytes>)

  predicate SizeFits(f: Frame) {
    match ContentSizeWidth(f.sizeFlag, f.singleSegment)
    case 0 => false
    case 1 => f.size < 256
    case 2 => 256 <= f.size < 256 + 65536
    case 4 => f.size < Pow256(4)
    case _ => f.size < Pow256(8)
  }

  predicate ValidFrame(f: Frame) {
    && f.sizeFlag < 4 && f.dictionaryFlag < 4
    && |f.window| == (if f.singleSegment then 0 else 1)
    && |f.dictionaryId| == DictionaryIdWidth(f.dictionaryFlag)
    && SizeFits(f)
    && f.blocks != [] && (forall i :: 0 <= i < |f.blocks| ==> ValidBlock(f.blocks[i]))
    && (f.checksum.Some? ==> |f.checksum.value| == 4)
  }

  function Descriptor(f: Frame): Byte
    requires f.sizeFlag < 4 && f.dictionaryFlag < 4
  {
    f.sizeFlag * 64 + (if f.singleSegment then 32 else 0) + (if f.checksum.Some? then 4 else 0) + f.dictionaryFlag
  }

  function SizeField(f: Frame): Bytes
    requires SizeFits(f)
  {
    var width := ContentSizeWidth(f.sizeFlag, f.singleSegment);
    ToLE(if width == 2 then f.size - 256 else f.size, width)
  }

  function EncodeHeader(f: Frame): Bytes
    requires ValidFrame(f)
  {
    MAGIC + [Descriptor(f)] + f.window + f.dictionaryId + SizeField(f)
  }

  function Encode(f: Frame): Bytes
    requires ValidFrame(f)
  {
    EncodeHeader(f) + EncodeBlocks(f.blocks) + if f.checksum.Some? then f.checksum.value else []
  }

  // -------------------------------------------------------- decoding an encoding

  lemma SmallPowers()
    ensures Pow256(0) == 1 && Pow256(1) == 256 && Pow256(2) == 0x1_0000 && Pow256(3) == 0x100_0000
    ensures Pow256(4) == 0x1_0000_0000
  {
  }

  /** A block header's three fields read back. */
  lemma HeaderFields(last: int, kind: int, size: int)
    requires 0 <= last < 2 && 0 <= kind < 4 && 0 <= size
    ensures var field := last + 2 * kind + 8 * size;
            field % 2 == last && field / 2 % 4 == kind && field / 8 == size
  {
    assert (last + 2 * kind + 8 * size) / 2 == kind + 4 * size;
  }

  lemma BlockFieldBits(k: Block, last: bool)
    requires ValidBlock(k)
    ensures var field := BlockField(k) + if last then 1 else 0;
            && FromLE(ToLE(field, 3)) == field
            && field % 2 == (if last then 1 else 0)
            && field / 2 % 4 == (if k.Raw? then 0 else if k.Rle? then 1 else 2)
            && field / 8 == if k.Rle? then k.count else |k.body|
  {
    HeaderFields(if last then 1 else 0, if k.Raw? then 0 else if k.Rle? then 1 else 2,
                 if k.Rle? then k.count else |k.body|);
    SmallPowers();
    FromToLE(BlockField(k) + if last then 1 else 0, 3);
  }

  /** `piece` stands in `b` from `at` on. */
  predicate At(b: Bytes, at: nat, piece: Bytes) {
    at + |piece| <= |b| && b[at..at + |piece|] == piece
  }

  lemma AtSplits(b: Bytes, at: nat, x: Bytes, y: Bytes)
    requires At(b, at, x + y)
    ensures At(b, at, x) && At(b, at + |x|, y)
  {
    var both := b[at..at + |x + y|];
    assert both[..|x|] == x && both[|x|..] == y;
    assert b[at..at + |x|] == both[..|x|];
    assert b[at + |x|..at + |x| + |y|] == both[|x|..];
  }

  lemma BlockHeaderReads(k: Block, last: bool, b: Bytes, at: nat)
    requires ValidBlock(k) && At(b, at, EncodeBlock(k, last))
    ensures BlockEnd(b, at) == Some(at + |EncodeBlock(k, last)|) && LastBlock(b, at) == last
  {
    var head := ToLE(BlockField(k) + if last then 1 else 0, 3);
    AtSplits(b, at, head, k.body);
    BlockFieldBits(k, last);
  }

  lemma {:induction false} EncodedBlocksWalk(blocks: seq<Block>, b: Bytes, at: nat)
    requires blocks != [] && forall i :: 0 <= i < |blocks| ==> ValidBlock(blocks[i])
    requires At(b, at, EncodeBlocks(blocks))
    ensures WalkBlocks(b, at) == Some(at + |EncodeBlocks(blocks)|)
    decreases |blocks|
  {
    var first := EncodeBlock(blocks[0], |blocks| == 1);
    if |blocks| == 1 {
      BlockHeaderReads(blocks[0], true, b, at);
    } else {
      AtSplits(b, at, first, EncodeBlocks(blocks[1..]));
      BlockHeaderReads(blocks[0], false, b, at);
      EncodedBlocksWalk(blocks[1..], b, at + |first|);
    }
  }

  lemma SizeFieldReads(f: Frame)
    requires SizeFits(f) && f.sizeFlag < 4
    ensures ReadContentSize(SizeField(f)) == if |SizeField(f)| == 8 then ToNumber(f.size) else f.size
  {
    var width := ContentSizeWidth(f.sizeFlag, f.singleSegment);
    SmallPowers();
    FromToLE(if width == 2 then f.size - 256 else f.size, width);
  }

  /** The descriptor's bit fields read back. */
  lemma BitFields(flag: int, single: int, checksum: int, dictionary: int)
    requires 0 <= flag < 4 && 0 <= single < 2 && 0 <= checksum < 2 && 0 <= dictionary < 4
    ensures var d := flag * 64 + single * 32 + checksum * 4 + dictionary;
            d / 64 == flag && d / 32 % 2 == single && d / 8 % 4 == 0 && d / 4 % 2 == checksum && d % 4 == dictionary
  {
    var d := flag * 64 + single * 32 + checksum * 4 + dictionary;
    assert d / 4 == flag * 16 + single * 8 + checksum;
    assert d / 8 == flag * 8 + single * 4;
    assert d / 32 == flag * 2 + single;
  }

  /** And they determine it. */
  lemma BitFieldsDetermine(d: int)
    requires 0 <= d < 256 && d / 8 % 4 == 0
    ensures d == d / 64 * 64 + d / 32 % 2 * 32 + d / 4 % 2 * 4 + d % 4
  {
    assert d / 32 % 2 == d / 32 - 2 * (d / 64);
    assert d / 8 == 4 * (d / 32);
    assert d / 4 % 2 == d / 4 - 2 * (d / 8);
    assert d % 4 == d - 4 * (d / 4);
  }

  lemma DescriptorBits(f: Frame)
    requires ValidFrame(f)
    ensures var d := Descriptor(f);
            && d / 64 == f.sizeFlag && d % 4 == f.dictionaryFlag && d / 8 % 4 == 0
            && d / 32 % 2 == (if f.singleSegment then 1 else 0)
            && d / 4 % 2 == (if f.checksum.Some? then 1 else 0)
  {
    BitFields(f.sizeFlag, if f.singleSegment then 1 else 0, if f.checksum.Some? then 1 else 0, f.dictionaryFlag);
  }

  lemma HeaderLayout(f: Frame)
    requires ValidFrame(f)
    ensures var h, offset := EncodeHeader(f), 5 + |f.window| + |f.dictionaryId|;
            && |h| == offset + |SizeField(f)| >= 6 && h[..4] == MAGIC && h[4] == Descriptor(f)
            && h[offset..] == SizeField(f)
  {
  }

  lemma HeaderReads(f: Frame, b: Bytes)
    requires ValidFrame(f) && EncodeHeader(f) <= b
    ensures ParseHeader(b) == Some(Header(Some(ReadContentSize(SizeField(f))), |EncodeHeader(f)|, f.checksum.Some?))
  {
    var h, offset := EncodeHeader(f), 5 + |f.window| + |f.dictionaryId|;
    HeaderLayout(f);
    DescriptorBits(f);
    assert b[..4] == h[..4];
    assert b[4] == h[4];
    assert b[offset..|h|] == h[offset..];
  }

  lemma BodyWalks(f: Frame, b: Bytes)
    requires ValidFrame(f) && b == Encode(f)
    ensures WalkBlocks(b, |EncodeHeader(f)|) == Some(|EncodeHeader(f)| + |EncodeBlocks(f.blocks)|)
  {
    var h, k := EncodeHeader(f), EncodeBlocks(f.blocks);
    assert b[|h|..|h| + |k|] == k;
    EncodedBlocksWalk(f.blocks, b, |h|);
  }

  /** The declared size of every valid frame is read back, whatever its layout. */
  lemma DecodesEveryEncoding(f: Frame)
    requires ValidFrame(f)
    ensures DeclaredContentSize(Encode(f)) == Some(if |SizeField(f)| == 8 then ToNumber(f.size) else f.size)
  {
    var b, h := Encode(f), EncodeHeader(f);
    assert h <= b;
    HeaderReads(f, b);
    SizeFieldReads(f);
    BodyWalks(f, b);
  }

  // ---------------------------------------------------------- only encodings decode

  ghost function DecodeBlock(b: Bytes, at: nat): Block
    requires BlockEnd(b, at).Some?
  {
    var raw := FromLE(b[at..at + 3]);
    var body := b[at + 3..BlockEnd(b, at).value];
    match raw / 2 % 4
    case 0 => Raw(body)
    case 1 => Rle(raw / 8, body)
    case _ => Compressed(body)
  }

  lemma ReencodesBlock(b: Bytes, at: nat)
    requires BlockEnd(b, at).Some?
    ensures var k := DecodeBlock(b, at);
            ValidBlock(k) && EncodeBlock(k, LastBlock(b, at)) == b[at..BlockEnd(b, at).value]
  {
    var k, raw, end := DecodeBlock(b, at), FromLE(b[at..at + 3]), BlockEnd(b, at).value;
    SmallPowers();
    ToFromLE(b[at..at + 3]);
    assert raw / 2 == raw / 2 % 4 + 4 * (raw / 8);
    assert BlockField(k) + (if LastBlock(b, at) then 1 else 0) == raw;
    assert b[at..end] == b[at..at + 3] + b[at + 3..end];
  }

  ghost function DecodeBlocks(b: Bytes, at: nat): (blocks: seq<Block>)
    requires WalkBlocks(b, at).Some?
    ensures blocks != [] && forall i :: 0 <= i < |blocks| ==> ValidBlock(blocks[i])
    ensures at <= WalkBlocks(b, at).value <= |b|
    ensures EncodeBlocks(blocks) == b[at..WalkBlocks(b, at).value]
    decreases |b| - at
  {
    var end := BlockEnd(b, at).value;
    var first := DecodeBlock(b, at);
    ReencodesBlock(b, at);
    if LastBlock(b, at) then [first]
    else
      var rest := DecodeBlocks(b, end);
      assert ([first] + rest)[1..] == rest;
      assert b[at..WalkBlocks(b, at).value] == b[at..end] + b[end..WalkBlocks(b, at).value];
      [first] + rest
  }

  function DictionaryOffset(b: Bytes): nat
    requires |b| >= 6
  {
    if b[4] / 32 % 2 == 1 then 5 else 6
  }

  /** The frame whose encoding `b` is, piece by piece. */
  ghost function DecodeFrame(b: Bytes): (f: Frame)
    requires DeclaredContentSize(b).Some?
  {
    var header := ParseHeader(b).value;
    var at, body := DictionaryOffset(b), header.bodyOffset;
    var width := ContentSizeWidth(b[4] / 64, b[4] / 32 % 2 == 1);
    Frame(b[4] / 32 % 2 == 1, b[4] / 64, b[4] % 4,
          b[5..at], b[at..body - width],
          FromLE(b[body - width..body]) + (if width == 2 then 256 else 0),
          DecodeBlocks(b, body),
          if header.hasChecksum then Some(b[WalkBlocks(b, body).value..]) else None)
  }

  lemma DecodedSizeField(b: Bytes)
    requires DeclaredContentSize(b).Some?
    ensures var f, body := DecodeFrame(b), ParseHeader(b).value.bodyOffset;
            SizeFits(f) && SizeField(f) == b[body - ContentSizeWidth(f.sizeFlag, f.singleSegment)..body]
  {
    var f, body := DecodeFrame(b), ParseHeader(b).value.bodyOffset;
    var width := ContentSizeWidth(f.sizeFlag, f.singleSegment);
    ToFromLE(b[body - width..body]);
    SmallPowers();
  }

  lemma DecodedFrameIsValid(b: Bytes)
    requires DeclaredContentSize(b).Some?
    ensures ValidFrame(DecodeFrame(b))
  {
    DecodedSizeField(b);
  }

  lemma DecodedDescriptor(b: Bytes)
    requires DeclaredContentSize(b).Some?
    ensures ValidFrame(DecodeFrame(b)) && Descriptor(DecodeFrame(b)) == b[4]
  {
    DecodedFrameIsValid(b);
    var f := DecodeFrame(b);
    BitFieldsDetermine(b[4]);
    assert f.checksum.Some? == (b[4] / 4 % 2 == 1);
  }

  lemma SlicesJoin(b: Bytes, i: nat, j: nat, k: nat)
    requires 5 <= i <= j <= k <= |b|
    ensures b[..4] + [b[4]] + b[5..i] + b[i..j] + b[j..k] == b[..k]
  {
  }

  lemma HeaderPieces(b: Bytes)
    requires DeclaredContentSize(b).Some?
    ensures var f, at, body := DecodeFrame(b), DictionaryOffset(b), ParseHeader(b).value.bodyOffset;
            var width := ContentSizeWidth(f.sizeFlag, f.singleSegment);
            && 5 <= at <= body - width <= body <= |b|
            && b[..4] == MAGIC && f.window == b[5..at] && f.dictionaryId == b[at..body - width]
  {
  }

  lemma ReencodesHeader(b: Bytes)
    requires DeclaredContentSize(b).Some?
    ensures ValidFrame(DecodeFrame(b)) && EncodeHeader(DecodeFrame(b)) == b[..ParseHeader(b).value.bodyOffset]
  {
    var f, at, body := DecodeFrame(b), DictionaryOffset(b), ParseHeader(b).value.bodyOffset;
    var width := ContentSizeWidth(f.sizeFlag, f.singleSegment);
    DecodedDescriptor(b);
    DecodedSizeField(b);
    HeaderPieces(b);
    calc {
      EncodeHeader(f);
      MAGIC + [Descriptor(f)] + f.window + f.dictionaryId + SizeField(f);
      b[..4] + [b[4]] + b[5..at] + b[at..body - width] + b[body - width..body];
      { SlicesJoin(b, at, body - width, body); }
      b[..body];
    }
  }

  /** Re-encoding the decoded frame gives the input back. */
  lemma ReencodesExactly(b: Bytes)
    requires DeclaredContentSize(b).Some?
    ensures ValidFrame(DecodeFrame(b)) && Encode(DecodeFrame(b)) == b
  {
    ReencodesHeader(b);
    ReencodesRest(b);
    var f, body := DecodeFrame(b), ParseHeader(b).value.bodyOffset;
    Rejoined(b, body, EncodeHeader(f), EncodeBlocks(f.blocks), if f.checksum.Some? then f.checksum.value else []);
  }

  lemma Rejoined(b: Bytes, body: nat, x: Bytes, y: Bytes, z: Bytes)
    requires body <= |b| && x == b[..body] && y + z == b[body..]
    ensures x + y + z == b
  {
    assert x + y + z == x + (y + z);
  }

  lemma ReencodesRest(b: Bytes)
    requires DeclaredContentSize(b).Some? && ValidFrame(DecodeFrame(b))
    ensures var f, body := DecodeFrame(b), ParseHeader(b).value.bodyOffset;
            body <= |b| && EncodeBlocks(f.blocks) + (if f.checksum.Some? then f.checksum.value else []) == b[body..]
  {
    var f, body := DecodeFrame(b), ParseHeader(b).value.bodyOffset;
    var end := WalkBlocks(b, body).value;
    assert f.blocks == DecodeBlocks(b, body);
    TailSplits(b, body, end, if f.checksum.Some? then f.checksum.value else []);
  }

  lemma TailSplits(b: Bytes, body: nat, end: nat, tail: Bytes)
    requires body <= end <= |b| && tail == b[end..]
    ensures b[body..end] + tail == b[body..]
  {
  }

  /** For every size a number holds exactly: the bytes declare `n` if and only if they are the
      encoding of one whole frame that declares `n`. */
  lemma DeclaresExactlyOneFrame(b: Bytes, n: nat)
    requires n < TWO_53
    ensures DeclaredContentSize(b) == Some(n) <==> exists f :: ValidFrame(f) && f.size == n && Encode(f) == b
  {
    if DeclaredContentSize(b).Some? {
      var f := DecodeFrame(b);
      ReencodesExactly(b);
      DecodesEveryEncoding(f);
      SmallNumbersAreExact(f.size, n);
    }
    if f :| ValidFrame(f) && f.size == n && Encode(f) == b {
      DecodesEveryEncoding(f);
      SmallNumbersAreExact(f.size, n);
    }
  }

  /** The declared size is read as it is if and only if it is a multiple of the spacing of doubles there. */
  lemma SizesReadExactly(f: Frame)
    requires ValidFrame(f)
    ensures DeclaredContentSize(Encode(f)) == Some(f.size) <==> f.size % Ulp(f.size) == 0
  {
    DecodesEveryEncoding(f);
    ExactlyTheMultiples(f.size);
    SmallPowers();
    if |SizeField(f)| != 8 {
      assert f.size < TWO_53;
    }
  }

  /** Above 2^53 the answer is the nearest double, so two declarations can read the same. */
  lemma LargeDeclarationsAreRounded(f: Frame)
    requires ValidFrame(f) && f.sizeFlag == 3 && f.size == TWO_53 + 1
    ensures DeclaredContentSize(Encode(f)) == Some(TWO_53)
  {
    DecodesEveryEncoding(f);
    assert ToNumber(TWO_53 + 1) == TWO_53 by {
      assert Ulp(TWO_53 / 2) == 1;
      assert (TWO_53 + 1) / 2 == TWO_53 / 2;
      assert Ulp(TWO_53 + 1) == 2;
    }
  }

  // ------------------------------------------------------------------ whole inputs

  lemma {:induction false} WalkIgnoresTail(b: Bytes, tail: Bytes, at: nat)
    requires WalkBlocks(b, at).Some?
    ensures WalkBlocks(b + tail, at) == WalkBlocks(b, at)
    decreases |b| - at
  {
    assert (b + tail)[at..at + 3] == b[at..at + 3];
    if !LastBlock(b, at) {
      WalkIgnoresTail(b, tail, BlockEnd(b, at).value);
    }
  }

  /** Appending anything, a second frame included, leaves no bound: such input is refused. */
  lemma TrailingBytesAreRefused(b: Bytes, tail: Bytes)
    requires DeclaredContentSize(b).Some? && tail != []
    ensures DeclaredContentSize(b + tail) == None
  {
    var c := b + tail;
    assert c[..4] == b[..4] && c[4] == b[4];
    var header := ParseHeader(b).value;
    WalkIgnoresTail(b, tail, header.bodyOffset);
    assert ParseHeader(c).Some? && ParseHeader(c).value.bodyOffset == header.bodyOffset
           && ParseHeader(c).value.hasChecksum == header.hasChecksum;
  }

  /** Nor does any truncation of an accepted input declare a size. */
  lemma TruncationsAreRefused(b: Bytes, k: nat)
    requires DeclaredContentSize(b).Some? && k < |b|
    ensures DeclaredContentSize(b[..k]) == None
  {
    assert b[..k] + b[k..] == b;
    if DeclaredContentSize(b[..k]).Some? {
      TrailingBytesAreRefused(b[..k], b[k..]);
    }
  }
}
