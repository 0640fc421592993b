/** Value types shared by every module. */
module Prelude {

  datatype Option<+T> = None | Some(value: T)

  /** An optional JavaScript property: absent, JSON `null`, or a value. */
  datatype Field<+T> = Absent | Null | Value(v: T)
  {
    /** `field ?? null` */
    function OrNull(): Option<T> {
      if Value? then Some(v) else None
    }
  }

  /** `Number.MAX_SAFE_INTEGER` */
  const MAX_SAFE: int := 0x1F_FFFF_FFFF_FFFF

  predicate SafeInteger(n: int) {
    -MAX_SAFE <= n <= MAX_SAFE
  }

  function Max(a: int, b: int): int {
    if a < b then b else a
  }

  function Min(a: int, b: int): int {
    if a < b then a else b
  }

  /** JavaScript strings are sequences of UTF-16 code units. */
  type Unit = c: int | 0 <= c < 0x1_0000
  type Text = seq<Unit>
  type Byte = b: int | 0 <= b < 256
  type Bytes = seq<Byte>

  /** `[0-9a-f]` */
  predicate LowerHex(c: Unit) {
    0x30 <= c <= 0x39 || 0x61 <= c <= 0x66
  }

  predicate HexText(s: Text, length: nat) {
    |s| == length && forall i :: 0 <= i < |s| ==> LowerHex(s[i])
  }
}
