/** UTF-16 text and its UTF-8 bytes, as `TextEncoder` and `TextDecoder` convert them. */
module Utf {
  import opened Prelude

  predicate High(c: Unit) { 0xD800 <= c < 0xDC00 }

  predicate Low(c: Unit) { 0xDC00 <= c < 0xE000 }

  predicate Paired(t: Text) {
    |t| >= 2 && High(t[0]) && Low(t[1])
  }

  /** No surrogate stands alone. */
  predicate WellFormed(t: Text) {
    if t == [] then true
    else if Paired(t) then WellFormed(t[2..])
    else !High(t[0]) && !Low(t[0]) && WellFormed(t[1..])
  }

  lemma {:induction false} WellFormedConcat(a: Text, b: Text)
    requires WellFormed(a) && WellFormed(b)
    ensures WellFormed(a + b)
    decreases |a|
  {
    if a == [] {
      assert a + b == b;
    } else if Paired(a) {
      assert (a + b)[2..] == a[2..] + b;
      WellFormedConcat(a[2..], b);
    } else {
      assert (a + b)[1..] == a[1..] + b;
      WellFormedConcat(a[1..], b);
    }
  }

  lemma {:induction false} PlainIsWellFormed(t: Text)
    requires forall i :: 0 <= i < |t| ==> t[i] < 0xD800
    ensures WellFormed(t)
  {
    if t != [] {
      PlainIsWellFormed(t[1..]);
    }
  }

  /** One code point as UTF-8. */
  function EncodePoint(p: nat): Bytes
    requires p < 0x11_0000
  {
    if p < 0x80 then [p]
    else if p < 0x800 then [0xC0 + p / 0x40, 0x80 + p % 0x40]
    else if p < 0x1_0000 then [0xE0 + p / 0x1000, 0x80 + p / 0x40 % 0x40, 0x80 + p % 0x40]
    else [0xF0 + p / 0x4_0000, 0x80 + p / 0x1000 % 0x40, 0x80 + p / 0x40 % 0x40, 0x80 + p % 0x40]
  }

  function PairPoint(h: Unit, l: Unit): nat
    requires High(h) && Low(l)
  {
    0x1_0000 + (h - 0xD800) * 0x400 + (l - 0xDC00)
  }

  /** `TextEncoder.encode`: a lone surrogate becomes U+FFFD. */
  function Encode(t: Text): Bytes {
    if t == [] then []
    else if Paired(t) then EncodePoint(PairPoint(t[0], t[1])) + Encode(t[2..])
    else EncodePoint(if High(t[0]) || Low(t[0]) then 0xFFFD else t[0]) + Encode(t[1..])
  }

  function Tail(b: Byte): nat {
    b % 0x40
  }

  /** The code units of the first code point, and how many bytes it takes. Malformed input, which
      no encoder produces, reads as U+FFFD. */
  function DecodeFirst(b: Bytes): (r: (Text, nat))
    requires b != []
    ensures 1 <= r.1 <= |b|
  {
    if b[0] < 0x80 then ([b[0]], 1)
    else if 0xC0 <= b[0] < 0xE0 && |b| >= 2 then ([(b[0] - 0xC0) * 0x40 + Tail(b[1])], 2)
    else if 0xE0 <= b[0] < 0xF0 && |b| >= 3 then ([(b[0] - 0xE0) * 0x1000 + Tail(b[1]) * 0x40 + Tail(b[2])], 3)
    else if 0xF0 <= b[0] < 0xF5 && |b| >= 4 then
      var p: int := (b[0] - 0xF0) * 0x4_0000 + Tail(b[1]) * 0x1000 + Tail(b[2]) * 0x40 + Tail(b[3]);
      if 0x1_0000 <= p < 0x11_0000 then ([0xD800 + (p - 0x1_0000) / 0x400, 0xDC00 + (p - 0x1_0000) % 0x400], 4)
      else ([0xFFFD], 1)
    else ([0xFFFD], 1)
  }

  function DecodeAll(b: Bytes): Text {
    if b == [] then []
    else
      var (units, used) := DecodeFirst(b);
      units + DecodeAll(b[used..])
  }

  const BOM: Unit := 0xFEFF

  /** `TextDecoder.decode` with its default `ignoreBOM: false`: a leading U+FEFF is dropped. */
  function Decode(b: Bytes): Text {
    var t := DecodeAll(b);
    if t != [] && t[0] == BOM then t[1..] else t
  }

  lemma PointDecodes(p: nat, rest: Bytes)
    requires p < 0x1_0000
    ensures DecodeFirst(EncodePoint(p) + rest) == ([p], |EncodePoint(p)|)
  {
    assert p / 0x40 / 0x40 == p / 0x1000;
  }

  /** A number is its four base-64 digits. */
  lemma FourDigits(p: nat)
    ensures p / 0x4_0000 * 0x4_0000 + p / 0x1000 % 0x40 * 0x1000 + p / 0x40 % 0x40 * 0x40 + p % 0x40 == p
  {
    assert p == p / 0x40 * 0x40 + p % 0x40;
    var q := p / 0x40;
    assert q / 0x40 == p / 0x1000;
    assert q == q / 0x40 * 0x40 + q % 0x40;
    var r := q / 0x40;
    assert r / 0x40 == p / 0x4_0000;
    assert r == r / 0x40 * 0x40 + r % 0x40;
  }

  lemma PairSplits(h: int, l: int)
    requires 0 <= h < 0x400 && 0 <= l < 0x400
    ensures (h * 0x400 + l) / 0x400 == h && (h * 0x400 + l) % 0x400 == l
    ensures h * 0x400 + l < 0x10_0000
  {
  }

  lemma FourBytesDecode(w: nat, x: nat, y: nat, z: nat, rest: Bytes)
    requires w < 5 && x < 0x40 && y < 0x40 && z < 0x40
    requires 0x1_0000 <= w * 0x4_0000 + x * 0x1000 + y * 0x40 + z < 0x11_0000
    ensures var p := w * 0x4_0000 + x * 0x1000 + y * 0x40 + z - 0x1_0000;
            DecodeFirst([0xF0 + w, 0x80 + x, 0x80 + y, 0x80 + z] + rest) ==
              ([0xD800 + p / 0x400, 0xDC00 + p % 0x400], 4)
  {
    assert Tail(0x80 + x) == x && Tail(0x80 + y) == y && Tail(0x80 + z) == z;
  }

  lemma PairDecodes(h: Unit, l: Unit, rest: Bytes)
    requires High(h) && Low(l)
    ensures DecodeFirst(EncodePoint(PairPoint(h, l)) + rest) == ([h, l], 4)
  {
    var p := PairPoint(h, l);
    PairSplits(h - 0xD800, l - 0xDC00);
    FourDigits(p);
    FourBytesDecode(p / 0x4_0000, p / 0x1000 % 0x40, p / 0x40 % 0x40, p % 0x40, rest);
  }

  /** UTF-8 gives well-formed text back. */
  lemma {:induction false} DecodesEncoded(t: Text)
    requires WellFormed(t)
    ensures DecodeAll(Encode(t)) == t
    decreases |t|
  {
    if t == [] {
    } else if Paired(t) {
      PairDecodes(t[0], t[1], Encode(t[2..]));
      DecodesEncoded(t[2..]);
      var head := EncodePoint(PairPoint(t[0], t[1]));
      assert (head + Encode(t[2..]))[4..] == Encode(t[2..]);
      assert t == [t[0], t[1]] + t[2..];
    } else {
      PointDecodes(t[0], Encode(t[1..]));
      DecodesEncoded(t[1..]);
      var head := EncodePoint(t[0]);
      assert (head + Encode(t[1..]))[|head|..] == Encode(t[1..]);
      assert t == [t[0]] + t[1..];
    }
  }

  /** Distinct well-formed texts have distinct bytes. */
  lemma EncodeInjective(s: Text, t: Text)
    requires WellFormed(s) && WellFormed(t) && Encode(s) == Encode(t)
    ensures s == t
  {
    DecodesEncoded(s);
    DecodesEncoded(t);
  }

  /** The decoder returns the text itself exactly when it does not start with a byte order mark. */
  lemma RoundTripsUnlessMarked(t: Text)
    requires WellFormed(t)
    ensures Decode(Encode(t)) == t <==> !(t != [] && t[0] == BOM)
  {
    DecodesEncoded(t);
  }
}
