/**
 * Canonical JSON, the preimage of a pointer's signature (src/engine/canonical.ts and
 * `pointerSigningBytes` in src/engine/sync.ts), and a parser that inverts it.
 */
module Canonical {
  import opened Prelude
  import Utf
  import Floor

  /** JSON with integer numbers. Object members keep their source order. */
  datatype Json =
    | JNull
    | JBool(b: bool)
    | JNum(n: int)
    | JStr(s: Text)
    | JArr(items: seq<Json>)
    | JObj(members: seq<(Text, Json)>)

  function Keys(members: seq<(Text, Json)>): (keys: seq<Text>)
    ensures |keys| == |members| && forall i :: 0 <= i < |keys| ==> keys[i] == members[i].0
  {
    seq(|members|, i requires 0 <= i < |members| => members[i].0)
  }

  predicate Distinct(keys: seq<Text>) {
    forall i, j :: 0 <= i < j < |keys| ==> keys[i] != keys[j]
  }

  /** An object's own properties have distinct names, at every depth. */
  predicate Valid(v: Json) {
    match v
    case JArr(items) => forall i :: 0 <= i < |items| ==> Valid(items[i])
    case JObj(members) => Distinct(Keys(members)) && forall i :: 0 <= i < |members| ==> Valid(members[i].1)
    case _ => true
  }

  /** `value[key]`, for a key the object has. */
  function Get(v: Json, key: Text): (r: Json)
    requires v.JObj? && key in Keys(v.members)
    ensures (key, r) in v.members
    ensures r < v
  {
    FindMember(v.members, key)
  }

  function FindMember(members: seq<(Text, Json)>, key: Text): (r: Json)
    requires key in Keys(members)
    ensures (key, r) in members
  {
    if members[0].0 == key then members[0].1
    else
      assert Keys(members[1..]) == Keys(members)[1..];
      FindMember(members[1..], key)
  }

  lemma {:induction false} FindIsUnique(members: seq<(Text, Json)>, i: nat)
    requires i < |members| && Distinct(Keys(members))
    ensures FindMember(members, members[i].0) == members[i].1
  {
    if members[0].0 == members[i].0 {
    } else {
      assert Keys(members[1..]) == Keys(members)[1..];
      FindIsUnique(members[1..], i - 1);
    }
  }

  // ----------------------------------------------------------------- sorted keys

  /** JavaScript's `<` on strings: by code units. */
  predicate Less(a: Text, b: Text) {
    if b == [] then false
    else if a == [] then true
    else if a[0] != b[0] then a[0] < b[0]
    else Less(a[1..], b[1..])
  }

  lemma {:induction false} LessIsTotal(a: Text, b: Text)
    ensures Less(a, b) || Less(b, a) || a == b
    ensures !(Less(a, b) && Less(b, a)) && !Less(a, a)
  {
    if a != [] {
      LessIsTotal(a[1..], a[1..]);
    }
    if a != [] && b != [] && a[0] == b[0] {
      LessIsTotal(a[1..], b[1..]);
      assert a == [a[0]] + a[1..] && b == [b[0]] + b[1..];
    }
  }

  lemma {:induction false} LessIsTransitive(a: Text, b: Text, c: Text)
    requires Less(a, b) && Less(b, c)
    ensures Less(a, c)
  {
    if a != [] && a[0] == b[0] == c[0] {
      LessIsTransitive(a[1..], b[1..], c[1..]);
    }
  }

  predicate Sorted(keys: seq<Text>) {
    forall i, j :: 0 <= i < j < |keys| ==> Less(keys[i], keys[j])
  }

  function Insert(key: Text, keys: seq<Text>): (r: seq<Text>)
    ensures multiset(r) == multiset(keys) + multiset{key}
  {
    if keys == [] then [key]
    else if Less(keys[0], key) then
      assert keys == [keys[0]] + keys[1..];
      [keys[0]] + Insert(key, keys[1..])
    else
      [key] + keys
  }

  /** `keys.sort()` */
  function Sort(keys: seq<Text>): (r: seq<Text>)
    ensures multiset(r) == multiset(keys)
  {
    if keys == [] then []
    else
      assert keys == [keys[0]] + keys[1..];
      Insert(keys[0], Sort(keys[1..]))
  }

  lemma SameMembers(a: seq<Text>, b: seq<Text>)
    requires multiset(a) == multiset(b)
    ensures forall k :: k in a <==> k in b
  {
    forall k ensures k in a <==> k in b {
      assert k in a <==> k in multiset(a);
      assert k in b <==> k in multiset(b);
    }
  }

  lemma {:induction false} InsertSorts(key: Text, keys: seq<Text>)
    requires Sorted(keys) && key !in keys
    ensures Sorted(Insert(key, keys))
  {
    if keys == [] {
    } else if Less(keys[0], key) {
      InsertSorts(key, keys[1..]);
      var rest := Insert(key, keys[1..]);
      forall i | 0 <= i < |rest| ensures Less(keys[0], rest[i]) {
        assert rest[i] in multiset(rest);
        assert rest[i] == key || rest[i] in keys[1..];
      }
    } else {
      LessIsTotal(keys[0], key);
      forall i | 0 <= i < |keys| ensures Less(key, keys[i]) {
        if i > 0 { LessIsTransitive(key, keys[0], keys[i]); }
      }
    }
  }

  lemma {:induction false} SortSorts(keys: seq<Text>)
    requires Distinct(keys)
    ensures Sorted(Sort(keys))
  {
    if keys != [] {
      SortSorts(keys[1..]);
      SameMembers(Sort(keys[1..]), keys[1..]);
      InsertSorts(keys[0], Sort(keys[1..]));
    }
  }

  lemma HasElement(s: seq<Text>)
    requires s != []
    ensures exists k :: k in s
  {
    assert s[0] in s;
  }

  /** A sorted sequence is determined by the set of its elements. */
  lemma {:induction false} SortedIsUnique(a: seq<Text>, b: seq<Text>)
    requires Sorted(a) && Sorted(b) && forall k :: k in a <==> k in b
    ensures a == b
  {
    if a == [] {
      if b != [] { HasElement(b); }
    } else {
      assert a[0] in b;
      assert b[0] in a;
      LessIsTotal(a[0], b[0]);
      forall k ensures k in a[1..] <==> k in b[1..] {
        LessIsTotal(a[0], a[0]);
        assert k in a[1..] ==> Less(a[0], k) && k in a;
        assert k in b[1..] ==> Less(b[0], k) && k in b;
      }
      SortedIsUnique(a[1..], b[1..]);
      assert a == [a[0]] + a[1..] && b == [b[0]] + b[1..];
    }
  }

  /** Sorting forgets the order of distinct keys and nothing else. */
  lemma SortForgetsOrder(a: seq<Text>, b: seq<Text>)
    requires Distinct(a) && Distinct(b)
    ensures Sort(a) == Sort(b) <==> forall k :: k in a <==> k in b
  {
    SameMembers(Sort(a), a);
    SameMembers(Sort(b), b);
    SortSorts(a);
    SortSorts(b);
    if forall k :: k in a <==> k in b {
      SortedIsUnique(Sort(a), Sort(b));
    }
  }

  // --------------------------------------------------------------------- scalars

  const QUOTE: Unit := 0x22
  const BACKSLASH: Unit := 0x5C
  const COMMA: Unit := 0x2C
  const COLON: Unit := 0x3A
  const MINUS: Unit := 0x2D
  const OPEN_LIST: Unit := 0x5B
  const CLOSE_LIST: Unit := 0x5D
  const OPEN_OBJECT: Unit := 0x7B
  const CLOSE_OBJECT: Unit := 0x7D
  const NULL_TEXT: Text := [0x6E, 0x75, 0x6C, 0x6C]
  const TRUE_TEXT: Text := [0x74, 0x72, 0x75, 0x65]
  const FALSE_TEXT: Text := [0x66, 0x61, 0x6C, 0x73, 0x65]

  predicate Digit(c: Unit) { 0x30 <= c <= 0x39 }

  function NatText(n: nat): (t: Text)
    ensures t != [] && forall i :: 0 <= i < |t| ==> Digit(t[i])
  {
    if n < 10 then [0x30 + n] else NatText(n / 10) + [0x30 + n % 10]
  }

  function NumberText(n: int): Text {
    if n < 0 then [MINUS] + NatText(-n) else NatText(n)
  }

  function HexDigit(d: nat): Unit
    requires d < 16
  {
    if d < 10 then 0x30 + d else 0x61 + d - 10
  }

  function Hex4(c: Unit): Text {
    [HexDigit(c / 0x1000), HexDigit(c / 0x100 % 16), HexDigit(c / 16 % 16), HexDigit(c % 16)]
  }

  /** The letter of a two-character escape. */
  function ShortEscape(c: Unit): Option<Unit> {
    match c
    case 0x22 => Some(0x22)
    case 0x5C => Some(0x5C)
    case 8 => Some(0x62)
    case 12 => Some(0x66)
    case 10 => Some(0x6E)
    case 13 => Some(0x72)
    case 9 => Some(0x74)
    case _ => None
  }

  /** One code unit that is not half of a pair, as `JSON.stringify` writes it. */
  function Escape(c: Unit): Text {
    if ShortEscape(c).Some? then [BACKSLASH, ShortEscape(c).value]
    else if c < 0x20 || Utf.High(c) || Utf.Low(c) then [BACKSLASH, 0x75] + Hex4(c)
    else [c]
  }

  function Body(s: Text): Text {
    if s == [] then []
    else if Utf.Paired(s) then [s[0], s[1]] + Body(s[2..])
    else Escape(s[0]) + Body(s[1..])
  }

  function Quoted(s: Text): Text {
    [QUOTE] + Body(s) + [QUOTE]
  }

  // -------------------------------------------------------------------- serialize

  /** Recursively sorted keys, no whitespace. */
  function Serialize(v: Json): Text
    decreases v, 1, 0
  {
    match v
    case JNull => NULL_TEXT
    case JBool(b) => if b then TRUE_TEXT else FALSE_TEXT
    case JNum(n) => NumberText(n)
    case JStr(s) => Quoted(s)
    case JArr(items) => [OPEN_LIST] + SerializeItems(v, 0) + [CLOSE_LIST]
    case JObj(members) =>
      SameMembers(Sort(Keys(members)), Keys(members));
      [OPEN_OBJECT] + SerializeMembers(v, Sort(Keys(members))) + [CLOSE_OBJECT]
  }

  function SerializeItems(v: Json, i: nat): Text
    requires v.JArr? && i <= |v.items|
    decreases v, 0, |v.items| - i
  {
    if i == |v.items| then []
    else Serialize(v.items[i]) + if i + 1 == |v.items| then [] else [COMMA] + SerializeItems(v, i + 1)
  }

  function SerializeMembers(v: Json, keys: seq<Text>): Text
    requires v.JObj? && forall k :: k in keys ==> k in Keys(v.members)
    decreases v, 0, |keys|
  {
    if keys == [] then []
    else
      Quoted(keys[0]) + [COLON] + Serialize(Get(v, keys[0]))
      + if |keys| == 1 then [] else [COMMA] + SerializeMembers(v, keys[1..])
  }

  // ------------------------------------------------------------------ a parser

  function HexValue(c: Unit): nat {
    if 0x30 <= c <= 0x39 then c - 0x30 else if 0x61 <= c <= 0x66 then c - 0x61 + 10 else 0
  }

  /** The unit a short escape's letter stands for. */
  function Unescape(letter: Unit): Unit {
    match letter
    case 0x62 => 8
    case 0x66 => 12
    case 0x6E => 10
    case 0x72 => 13
    case 0x74 => 9
    case _ => letter
  }

  /** One unit of a string body and how much text it takes; None at the closing quote. */
  function ReadUnit(t: Text): (r: Option<(Unit, nat)>)
    ensures r.Some? ==> 1 <= r.value.1 <= |t|
  {
    if t == [] || t[0] == QUOTE then None
    else if t[0] != BACKSLASH then Some((t[0], 1))
    else if |t| >= 6 && t[1] == 0x75 then
      Some((HexValue(t[2]) * 0x1000 + HexValue(t[3]) * 0x100 + HexValue(t[4]) * 16 + HexValue(t[5]), 6))
    else if |t| >= 2 then Some((Unescape(t[1]), 2))
    else None
  }

  /** The string up to the closing quote, and the text after it. */
  function ReadBody(t: Text): (r: Option<(Text, Text)>)
    ensures r.Some? ==> |r.value.1| < |t|
  {
    if t != [] && t[0] == QUOTE then Some(([], t[1..]))
    else
      match ReadUnit(t)
      case None => None
      case Some((c, n)) =>
        match ReadBody(t[n..])
        case None => None
        case Some((s, rest)) => Some(([c] + s, rest))
  }

  function DigitRun(t: Text): (n: nat)
    ensures n <= |t|
  {
    if t != [] && Digit(t[0]) then 1 + DigitRun(t[1..]) else 0
  }

  function DigitsValue(t: Text): nat {
    if t == [] then 0 else 10 * DigitsValue(t[..|t| - 1]) + HexValue(t[|t| - 1])
  }

  function ReadNumber(t: Text): (r: Option<(Json, Text)>)
    ensures r.Some? ==> |r.value.1| < |t|
  {
    var negative := t != [] && t[0] == MINUS;
    var digits := if negative then t[1..] else t;
    var n := DigitRun(digits);
    if n == 0 then None
    else
      var value: int := DigitsValue(digits[..n]);
      Some((JNum(if negative then -value else value), digits[n..]))
  }

  function ReadWord(t: Text): (r: Option<(Json, Text)>)
    ensures r.Some? ==> |r.value.1| < |t|
  {
    if NULL_TEXT <= t then Some((JNull, t[4..]))
    else if TRUE_TEXT <= t then Some((JBool(true), t[4..]))
    else if FALSE_TEXT <= t then Some((JBool(false), t[5..]))
    else None
  }

  function Parse(t: Text): (r: Option<(Json, Text)>)
    ensures r.Some? ==> |r.value.1| < |t|
    decreases |t|, 0
  {
    if t == [] then None
    else if t[0] == QUOTE then
      match ReadBody(t[1..])
      case None => None
      case Some((s, rest)) => Some((JStr(s), rest))
    else if t[0] == OPEN_LIST then
      if |t| >= 2 && t[1] == CLOSE_LIST then Some((JArr([]), t[2..]))
      else
        match ParseItems(t[1..])
        case None => None
        case Some((items, rest)) => Some((JArr(items), rest))
    else if t[0] == OPEN_OBJECT then
      if |t| >= 2 && t[1] == CLOSE_OBJECT then Some((JObj([]), t[2..]))
      else
        match ParseMembers(t[1..])
        case None => None
        case Some((members, rest)) => Some((JObj(members), rest))
    else if t[0] == MINUS || Digit(t[0]) then ReadNumber(t)
    else ReadWord(t)
  }

  function ParseItems(t: Text): (r: Option<(seq<Json>, Text)>)
    ensures r.Some? ==> |r.value.1| < |t|
    decreases |t|, 1
  {
    match Parse(t)
    case None => None
    case Some((v, rest)) =>
      if rest == [] then None
      else if rest[0] == CLOSE_LIST then Some(([v], rest[1..]))
      else if rest[0] != COMMA then None
      else
        match ParseItems(rest[1..])
        case None => None
        case Some((items, end)) => Some(([v] + items, end))
  }

  function ParseMembers(t: Text): (r: Option<(seq<(Text, Json)>, Text)>)
    ensures r.Some? ==> |r.value.1| < |t|
    decreases |t|, 1
  {
    if t == [] || t[0] != QUOTE then None
    else
      match ReadBody(t[1..])
      case None => None
      case Some((key, colon)) =>
        if colon == [] || colon[0] != COLON then None
        else
          match Parse(colon[1..])
          case None => None
          case Some((v, rest)) =>
            if rest == [] then None
            else if rest[0] == CLOSE_OBJECT then Some(([(key, v)], rest[1..]))
            else if rest[0] != COMMA then None
            else
              match ParseMembers(rest[1..])
              case None => None
              case Some((members, end)) => Some(([(key, v)] + members, end))
  }

  // ---------------------------------------------------------- the parser inverts it

  /** The same value with every object's members sorted: what the parser returns. */
  function Canon(v: Json): Json
    decreases v, 1, 0
  {
    match v
    case JArr(items) => JArr(CanonItems(v, 0))
    case JObj(members) =>
      SameMembers(Sort(Keys(members)), Keys(members));
      JObj(CanonMembers(v, Sort(Keys(members))))
    case _ => v
  }

  function CanonItems(v: Json, i: nat): (r: seq<Json>)
    requires v.JArr? && i <= |v.items|
    decreases v, 0, |v.items| - i
  {
    if i == |v.items| then [] else [Canon(v.items[i])] + CanonItems(v, i + 1)
  }

  function CanonMembers(v: Json, keys: seq<Text>): (r: seq<(Text, Json)>)
    requires v.JObj? && forall k :: k in keys ==> k in Keys(v.members)
    decreases v, 0, |keys|
  {
    if keys == [] then [] else [(keys[0], Canon(Get(v, keys[0])))] + CanonMembers(v, keys[1..])
  }

  lemma HexRoundTrips(c: Unit)
    ensures HexValue(Hex4(c)[0]) * 0x1000 + HexValue(Hex4(c)[1]) * 0x100 +
            HexValue(Hex4(c)[2]) * 16 + HexValue(Hex4(c)[3]) == c
  {
    assert c / 16 / 16 == c / 0x100 && c / 0x100 / 16 == c / 0x1000;
    assert c == c / 16 * 16 + c % 16;
    assert c / 16 == c / 0x100 * 16 + c / 16 % 16;
    assert c / 0x100 == c / 0x1000 * 16 + c / 0x100 % 16;
    assert forall d: nat :: d < 16 ==> HexValue(HexDigit(d)) == d;
  }

  lemma EscapeReads(c: Unit, rest: Text)
    ensures ReadUnit(Escape(c) + rest) == Some((c, |Escape(c)|))
  {
    HexRoundTrips(c);
  }

  /** Reading past one unit that was written as `piece`. */
  lemma BodyStep(c: Unit, piece: Text, after: Text)
    requires piece != [] && ReadUnit(piece + after) == Some((c, |piece|)) && ReadBody(after).Some?
    ensures ReadBody(piece + after) == Some(([c] + ReadBody(after).value.0, ReadBody(after).value.1))
  {
    assert (piece + after)[|piece|..] == after;
  }

  function Closed(s: Text, rest: Text): Text {
    Body(s) + [QUOTE] + rest
  }

  lemma ClosedPair(s: Text, rest: Text)
    requires Utf.Paired(s)
    ensures Closed(s, rest) == [s[0]] + ([s[1]] + Closed(s[2..], rest))
    ensures s == [s[0]] + ([s[1]] + s[2..])
  {
  }

  lemma ClosedUnit(s: Text, rest: Text)
    requires s != [] && !Utf.Paired(s)
    ensures Closed(s, rest) == Escape(s[0]) + Closed(s[1..], rest)
    ensures s == [s[0]] + s[1..]
  {
    assert Body(s) == Escape(s[0]) + Body(s[1..]);
  }

  lemma {:induction false} BodyReads(s: Text, rest: Text)
    ensures ReadBody(Closed(s, rest)) == Some((s, rest))
    decreases |s|
  {
    if s == [] {
      assert Closed(s, rest)[1..] == rest;
    } else if Utf.Paired(s) {
      BodyReads(s[2..], rest);
      ClosedPair(s, rest);
      BodyStep(s[1], [s[1]], Closed(s[2..], rest));
      BodyStep(s[0], [s[0]], [s[1]] + Closed(s[2..], rest));
    } else {
      BodyReads(s[1..], rest);
      ClosedUnit(s, rest);
      EscapeReads(s[0], Closed(s[1..], rest));
      BodyStep(s[0], Escape(s[0]), Closed(s[1..], rest));
    }
  }

  lemma {:induction false} NatTextValue(n: nat)
    ensures DigitsValue(NatText(n)) == n
  {
    if n < 10 {
      assert [0x30 + n][..0] == [];
    } else {
      NatTextValue(n / 10);
      assert NatText(n)[..|NatText(n)| - 1] == NatText(n / 10);
    }
  }

  lemma {:induction false} RunStops(digits: Text, rest: Text)
    requires forall i :: 0 <= i < |digits| ==> Digit(digits[i])
    requires rest == [] || !Digit(rest[0])
    ensures DigitRun(digits + rest) == |digits|
  {
    if digits == [] {
      assert digits + rest == rest;
    } else {
      assert (digits + rest)[1..] == digits[1..] + rest;
      RunStops(digits[1..], rest);
    }
  }

  lemma DigitsRead(digits: Text, rest: Text)
    requires digits != [] && forall i :: 0 <= i < |digits| ==> Digit(digits[i])
    requires rest == [] || !Digit(rest[0])
    ensures var t := digits + rest;
            t[0] != MINUS && DigitRun(t) == |digits| && t[..|digits|] == digits && t[|digits|..] == rest
  {
    RunStops(digits, rest);
  }

  lemma NumberReads(n: int, rest: Text)
    requires rest == [] || !Digit(rest[0])
    ensures ReadNumber(NumberText(n) + rest) == Some((JNum(n), rest))
  {
    if n < 0 {
      NegativeReads(-n, rest);
    } else {
      NaturalReads(n, rest);
    }
  }

  lemma NaturalReads(n: nat, rest: Text)
    requires rest == [] || !Digit(rest[0])
    ensures ReadNumber(NatText(n) + rest) == Some((JNum(n), rest))
  {
    DigitsRead(NatText(n), rest);
    NatTextValue(n);
  }

  lemma NegativeReads(n: nat, rest: Text)
    requires rest == [] || !Digit(rest[0])
    ensures ReadNumber([MINUS] + NatText(n) + rest) == Some((JNum(0 - n), rest))
  {
    var digits := NatText(n);
    var t := [MINUS] + digits + rest;
    DigitsRead(digits, rest);
    NatTextValue(n);
    assert t[0] == MINUS && t[1..] == digits + rest;
  }

  lemma StartsAValue(v: Json)
    ensures Serialize(v) != [] && Serialize(v)[0] != CLOSE_LIST && Serialize(v)[0] != CLOSE_OBJECT
    ensures v.JNum? ==> Digit(Serialize(v)[0]) || Serialize(v)[0] == MINUS
  {
  }

  /** What follows a value inside JSON text. */
  predicate Delimited(rest: Text) {
    rest == [] || !Digit(rest[0])
  }

  lemma ListParses(body: Text, items: seq<Json>, rest: Text)
    requires body != [] && body[0] != CLOSE_LIST && ParseItems(body) == Some((items, rest))
    ensures Parse([OPEN_LIST] + body) == Some((JArr(items), rest))
  {
    assert ([OPEN_LIST] + body)[1..] == body;
  }

  lemma ObjectParses(body: Text, members: seq<(Text, Json)>, rest: Text)
    requires body != [] && body[0] != CLOSE_OBJECT && ParseMembers(body) == Some((members, rest))
    ensures Parse([OPEN_OBJECT] + body) == Some((JObj(members), rest))
  {
    assert ([OPEN_OBJECT] + body)[1..] == body;
  }

  lemma EmptiesParse(rest: Text)
    ensures Parse([OPEN_LIST, CLOSE_LIST] + rest) == Some((JArr([]), rest))
    ensures Parse([OPEN_OBJECT, CLOSE_OBJECT] + rest) == Some((JObj([]), rest))
  {
    var none, nothing := [OPEN_LIST, CLOSE_LIST] + rest, [OPEN_OBJECT, CLOSE_OBJECT] + rest;
    assert none[0] == OPEN_LIST && none[1] == CLOSE_LIST && none[2..] == rest;
    assert nothing[0] == OPEN_OBJECT && nothing[1] == CLOSE_OBJECT && nothing[2..] == rest;
  }

  lemma WordParses(word: Text, rest: Text)
    requires word == NULL_TEXT || word == TRUE_TEXT || word == FALSE_TEXT
    ensures Parse(word + rest) ==
              Some((if word == NULL_TEXT then JNull else JBool(word == TRUE_TEXT), rest))
  {
    var t := word + rest;
    assert t[0] == word[0] && word <= t && t[|word|..] == rest;
  }

  lemma BodyParses(body: Text, s: Text, rest: Text)
    requires ReadBody(body) == Some((s, rest))
    ensures Parse([QUOTE] + body) == Some((JStr(s), rest))
  {
    assert ([QUOTE] + body)[1..] == body;
  }

  lemma StringParses(s: Text, rest: Text)
    ensures Parse(Quoted(s) + rest) == Some((JStr(s), rest))
  {
    BodyReads(s, rest);
    BodyParses(Closed(s, rest), s, rest);
    Bracketed(QUOTE, Body(s), QUOTE, rest);
  }

  lemma NumberParses(n: int, rest: Text)
    requires Delimited(rest)
    ensures Parse(NumberText(n) + rest) == Some((JNum(n), rest))
  {
    StartsAValue(JNum(n));
    NumberReads(n, rest);
    assert (NumberText(n) + rest)[0] == NumberText(n)[0];
  }

  /** Parsing canonical text gives back the value, its members in key order, and consumes
      exactly that text. */
  lemma {:induction false} Inverts(v: Json, rest: Text)
    requires Delimited(rest)
    ensures Parse(Serialize(v) + rest) == Some((Canon(v), rest))
    decreases v, 1, 0
  {
    match v
    case JNull => WordParses(NULL_TEXT, rest);
    case JBool(b) => WordParses(if b then TRUE_TEXT else FALSE_TEXT, rest);
    case JNum(n) => NumberParses(n, rest);
    case JStr(s) => StringParses(s, rest);
    case JArr(items) => ListInverts(v, rest);
    case JObj(members) => ObjectInverts(v, rest);
  }

  lemma Bracketed(open: Unit, body: Text, close: Unit, rest: Text)
    ensures [open] + body + [close] + rest == [open] + (body + [close] + rest)
  {
  }

  lemma ListText(v: Json, rest: Text)
    requires v.JArr?
    ensures Serialize(v) + rest == [OPEN_LIST] + ItemsTail(v, 0, rest)
  {
    Bracketed(OPEN_LIST, SerializeItems(v, 0), CLOSE_LIST, rest);
  }

  lemma {:induction false} ListInverts(v: Json, rest: Text)
    requires v.JArr?
    ensures Parse(Serialize(v) + rest) == Some((Canon(v), rest))
    decreases v, 0, |v.items| + 1
  {
    ListText(v, rest);
    assert Canon(v) == JArr(CanonItems(v, 0));
    if v.items == [] {
      assert ItemsTail(v, 0, rest) == [CLOSE_LIST] + rest;
      assert [OPEN_LIST] + ([CLOSE_LIST] + rest) == [OPEN_LIST, CLOSE_LIST] + rest;
      EmptiesParse(rest);
    } else {
      ItemsInvert(v, 0, rest);
      ListBodyStarts(v, rest);
      ListParses(ItemsTail(v, 0, rest), CanonItems(v, 0), rest);
    }
  }

  lemma ListBodyStarts(v: Json, rest: Text)
    requires v.JArr? && v.items != []
    ensures ItemsTail(v, 0, rest) != [] && ItemsTail(v, 0, rest)[0] != CLOSE_LIST
  {
    StartsAValue(v.items[0]);
    ItemsTailSplits(v, 0, rest);
  }

  lemma ObjectText(v: Json, rest: Text)
    requires v.JObj?
    ensures forall k :: k in Sort(Keys(v.members)) ==> k in Keys(v.members)
    ensures Serialize(v) + rest == [OPEN_OBJECT] + MembersTail(v, Sort(Keys(v.members)), rest)
  {
    SameMembers(Sort(Keys(v.members)), Keys(v.members));
    Bracketed(OPEN_OBJECT, SerializeMembers(v, Sort(Keys(v.members))), CLOSE_OBJECT, rest);
  }

  lemma SortLength(keys: seq<Text>)
    ensures |Sort(keys)| == |keys|
  {
    assert |Sort(keys)| == |multiset(Sort(keys))|;
  }

  lemma {:induction false} ObjectInverts(v: Json, rest: Text)
    requires v.JObj?
    ensures Parse(Serialize(v) + rest) == Some((Canon(v), rest))
    decreases v, 0, |v.members| + 1
  {
    var keys := Sort(Keys(v.members));
    ObjectText(v, rest);
    assert Canon(v) == JObj(CanonMembers(v, keys));
    SortLength(Keys(v.members));
    if keys == [] {
      assert MembersTail(v, keys, rest) == [CLOSE_OBJECT] + rest;
      assert [OPEN_OBJECT] + ([CLOSE_OBJECT] + rest) == [OPEN_OBJECT, CLOSE_OBJECT] + rest;
      EmptiesParse(rest);
    } else {
      MembersInvert(v, keys, rest);
      ObjectBodyStarts(v, keys, rest);
      ObjectParses(MembersTail(v, keys, rest), CanonMembers(v, keys), rest);
    }
  }

  lemma ObjectBodyStarts(v: Json, keys: seq<Text>, rest: Text)
    requires v.JObj? && keys != [] && forall k :: k in keys ==> k in Keys(v.members)
    ensures MembersTail(v, keys, rest) != [] && MembersTail(v, keys, rest)[0] != CLOSE_OBJECT
  {
    MembersTailSplits(v, keys, rest);
  }

  function ItemsTail(v: Json, i: nat, rest: Text): Text
    requires v.JArr? && i <= |v.items|
  {
    SerializeItems(v, i) + [CLOSE_LIST] + rest
  }

  lemma ItemsTailSplits(v: Json, i: nat, rest: Text)
    requires v.JArr? && i < |v.items|
    ensures ItemsTail(v, i, rest) ==
              Serialize(v.items[i]) +
              if i + 1 == |v.items| then [CLOSE_LIST] + rest else [COMMA] + ItemsTail(v, i + 1, rest)
  {
  }

  lemma {:induction false} ItemsInvert(v: Json, i: nat, rest: Text)
    requires v.JArr? && i < |v.items|
    ensures ParseItems(ItemsTail(v, i, rest)) == Some((CanonItems(v, i), rest))
    decreases v, 0, |v.items| - i
  {
    var after := if i + 1 == |v.items| then [CLOSE_LIST] + rest else [COMMA] + ItemsTail(v, i + 1, rest);
    ItemsTailSplits(v, i, rest);
    Inverts(v.items[i], after);
    if i + 1 < |v.items| {
      ItemsInvert(v, i + 1, rest);
      assert after[1..] == ItemsTail(v, i + 1, rest);
    } else {
      assert after[1..] == rest;
      assert CanonItems(v, i) == [Canon(v.items[i])];
    }
  }

  function MembersTail(v: Json, keys: seq<Text>, rest: Text): Text
    requires v.JObj? && forall k :: k in keys ==> k in Keys(v.members)
  {
    SerializeMembers(v, keys) + [CLOSE_OBJECT] + rest
  }

  lemma MembersTailSplits(v: Json, keys: seq<Text>, rest: Text)
    requires v.JObj? && keys != [] && forall k :: k in keys ==> k in Keys(v.members)
    ensures MembersTail(v, keys, rest) ==
              [QUOTE] + Closed(keys[0], [COLON] + (Serialize(Get(v, keys[0]))
              + if |keys| == 1 then [CLOSE_OBJECT] + rest else [COMMA] + MembersTail(v, keys[1..], rest)))
  {
  }

  lemma {:induction false} MembersInvert(v: Json, keys: seq<Text>, rest: Text)
    requires v.JObj? && keys != [] && forall k :: k in keys ==> k in Keys(v.members)
    ensures ParseMembers(MembersTail(v, keys, rest)) == Some((CanonMembers(v, keys), rest))
    decreases v, 0, |keys|
  {
    var after := if |keys| == 1 then [CLOSE_OBJECT] + rest else [COMMA] + MembersTail(v, keys[1..], rest);
    var value := Serialize(Get(v, keys[0])) + after;
    MembersTailSplits(v, keys, rest);
    BodyReads(keys[0], [COLON] + value);
    assert MembersTail(v, keys, rest)[1..] == Closed(keys[0], [COLON] + value);
    assert ([COLON] + value)[1..] == value;
    Inverts(Get(v, keys[0]), after);
    if |keys| > 1 {
      MembersInvert(v, keys[1..], rest);
      assert after[1..] == MembersTail(v, keys[1..], rest);
    } else {
      assert after[1..] == rest;
      assert CanonMembers(v, keys) == [(keys[0], Canon(Get(v, keys[0])))];
    }
  }

  // -------------------------------------------------------- equal up to key order

  /** The same JSON value, ignoring the order of every object's members. */
  ghost predicate Equiv(v: Json, w: Json)
    decreases v
  {
    match v
    case JArr(items) =>
      && w.JArr? && |items| == |w.items|
      && forall i :: 0 <= i < |items| ==> Equiv(items[i], w.items[i])
    case JObj(members) =>
      && w.JObj? && (forall k :: k in Keys(members) <==> k in Keys(w.members))
      && forall k :: k in Keys(members) ==> Equiv(Get(v, k), Get(w, k))
    case _ => v == w
  }

  lemma {:induction false} CanonItemAt(v: Json, i: nat, j: nat)
    requires v.JArr? && i <= j < |v.items|
    ensures |CanonItems(v, i)| == |v.items| - i && CanonItems(v, i)[j - i] == Canon(v.items[j])
    decreases |v.items| - i
  {
    CanonItemsLength(v, i + 1);
    if i < j {
      CanonItemAt(v, i + 1, j);
    }
  }

  lemma {:induction false} CanonItemsLength(v: Json, i: nat)
    requires v.JArr? && i <= |v.items|
    ensures |CanonItems(v, i)| == |v.items| - i
    decreases |v.items| - i
  {
    if i < |v.items| {
      CanonItemsLength(v, i + 1);
    }
  }

  lemma {:induction false} CanonMemberAt(v: Json, keys: seq<Text>, j: nat)
    requires v.JObj? && (forall k :: k in keys ==> k in Keys(v.members)) && j < |keys|
    ensures |CanonMembers(v, keys)| == |keys| && CanonMembers(v, keys)[j] == (keys[j], Canon(Get(v, keys[j])))
  {
    CanonMembersLength(v, keys);
    if j > 0 {
      CanonMemberAt(v, keys[1..], j - 1);
    }
  }

  lemma {:induction false} CanonMembersLength(v: Json, keys: seq<Text>)
    requires v.JObj? && forall k :: k in keys ==> k in Keys(v.members)
    ensures |CanonMembers(v, keys)| == |keys|
  {
    if keys != [] {
      CanonMembersLength(v, keys[1..]);
    }
  }

  /** Equal canonical forms are equivalent values. */
  lemma {:induction false} CanonDeterminesValue(v: Json, w: Json)
    requires Valid(v) && Valid(w) && Canon(v) == Canon(w)
    ensures Equiv(v, w)
    decreases v
  {
    match v
    case JArr(items) =>
      CanonLengthsAgree(v, w);
      forall i | 0 <= i < |items| ensures Equiv(items[i], w.items[i]) {
        ItemsAgree(v, w, i);
        CanonDeterminesValue(items[i], w.items[i]);
      }
    case JObj(members) =>
      CanonKeysAgree(v, w);
      forall k | k in Keys(members) ensures Equiv(Get(v, k), Get(w, k)) {
        MembersAgree(v, w, k);
        CanonDeterminesValue(Get(v, k), Get(w, k));
      }
    case _ =>
  }

  lemma CanonLengthsAgree(v: Json, w: Json)
    requires v.JArr? && Canon(v) == Canon(w)
    ensures w.JArr? && |v.items| == |w.items|
  {
    CanonItemsLength(v, 0);
    if w.JArr? {
      CanonItemsLength(w, 0);
    }
  }

  lemma ItemsAgree(v: Json, w: Json, i: nat)
    requires v.JArr? && w.JArr? && Valid(v) && Valid(w) && Canon(v) == Canon(w) && i < |v.items| == |w.items|
    ensures Canon(v.items[i]) == Canon(w.items[i]) && Valid(v.items[i]) && Valid(w.items[i])
  {
    CanonItemAt(v, 0, i);
    CanonItemAt(w, 0, i);
  }

  lemma CanonKeysAgree(v: Json, w: Json)
    requires v.JObj? && w.JObj? && Valid(v) && Valid(w) && Canon(v) == Canon(w)
    ensures Sort(Keys(v.members)) == Sort(Keys(w.members))
    ensures forall k :: k in Keys(v.members) <==> k in Keys(w.members)
  {
    var a, b := Sort(Keys(v.members)), Sort(Keys(w.members));
    SameMembers(a, Keys(v.members));
    SameMembers(b, Keys(w.members));
    CanonMembersLength(v, a);
    CanonMembersLength(w, b);
    forall i | 0 <= i < |a| ensures a[i] == b[i] {
      CanonMemberAt(v, a, i);
      CanonMemberAt(w, b, i);
    }
    assert a == b;
  }

  lemma MembersAgree(v: Json, w: Json, k: Text)
    requires v.JObj? && w.JObj? && Valid(v) && Valid(w) && Canon(v) == Canon(w)
    requires k in Keys(v.members)
    ensures k in Keys(w.members) && Canon(Get(v, k)) == Canon(Get(w, k))
    ensures Valid(Get(v, k)) && Valid(Get(w, k))
  {
    CanonKeysAgree(v, w);
    var a := Sort(Keys(v.members));
    SameMembers(a, Keys(v.members));
    SameMembers(a, Keys(w.members));
    var i :| 0 <= i < |a| && a[i] == k;
    CanonMemberAt(v, a, i);
    CanonMemberAt(w, a, i);
  }

  /** Equivalent values have the same text. */
  lemma {:induction false} EquivSerializes(v: Json, w: Json)
    requires Valid(v) && Valid(w) && Equiv(v, w)
    ensures Serialize(v) == Serialize(w)
    decreases v, 1, 0
  {
    match v
    case JArr(items) => EquivItems(v, w, 0);
    case JObj(members) =>
      SortForgetsOrder(Keys(members), Keys(w.members));
      SameMembers(Sort(Keys(members)), Keys(members));
      EquivMembers(v, w, Sort(Keys(members)));
    case _ =>
  }

  lemma {:induction false} EquivItems(v: Json, w: Json, i: nat)
    requires v.JArr? && w.JArr? && Valid(v) && Valid(w) && Equiv(v, w) && i <= |v.items|
    ensures SerializeItems(v, i) == SerializeItems(w, i)
    decreases v, 0, |v.items| - i
  {
    if i < |v.items| {
      EquivSerializes(v.items[i], w.items[i]);
      EquivItems(v, w, i + 1);
    }
  }

  lemma {:induction false} EquivMembers(v: Json, w: Json, keys: seq<Text>)
    requires v.JObj? && w.JObj? && Valid(v) && Valid(w) && Equiv(v, w)
    requires forall k :: k in keys ==> k in Keys(v.members)
    ensures SerializeMembers(v, keys) == SerializeMembers(w, keys)
    decreases v, 0, |keys|
  {
    if keys != [] {
      assert keys[0] in Keys(v.members);
      EquivSerializes(Get(v, keys[0]), Get(w, keys[0]));
      EquivMembers(v, w, keys[1..]);
    }
  }

  /** Canonical text is equal exactly for values that are equal up to key order. */
  lemma TextIdentifiesValue(v: Json, w: Json)
    requires Valid(v) && Valid(w)
    ensures Serialize(v) == Serialize(w) <==> Equiv(v, w)
  {
    if Serialize(v) == Serialize(w) {
      Inverts(v, []);
      Inverts(w, []);
      assert Serialize(v) + [] == Serialize(v) && Serialize(w) + [] == Serialize(w);
      CanonDeterminesValue(v, w);
    }
    if Equiv(v, w) {
      EquivSerializes(v, w);
    }
  }

  // -------------------------------------------------------------- canonical bytes

  function Ascii(s: string): Text
    requires forall i :: 0 <= i < |s| ==> s[i] < 128 as char
  {
    seq(|s|, i requires 0 <= i < |s| => s[i] as int)
  }

  const SIGNATURE: Text := Ascii("signature")
  const BUNDLE_ID: Text := Ascii("bundle_id")
  const CHANNEL: Text := Ascii("channel")
  const KEY_ID: Text := Ascii("key_id")
  const EXPIRES_AT: Text := Ascii("expires_at")
  const PROTO: Text := Ascii("__proto__")

  /** `filtered[key] = value` on a plain object: assigning `__proto__` creates no property. */
  function Assign(members: seq<(Text, Json)>, key: Text, value: Json): seq<(Text, Json)> {
    if key == PROTO then members else members + [(key, value)]
  }

  /** The members of the filtered payload, of the first `n`. */
  function Kept(members: seq<(Text, Json)>, exclude: set<Text>, n: nat): seq<(Text, Json)>
    requires n <= |members|
  {
    if n == 0 then []
    else if members[n - 1].0 in exclude then Kept(members, exclude, n - 1)
    else Assign(Kept(members, exclude, n - 1), members[n - 1].0, members[n - 1].1)
  }

  function Payload(v: Json, exclude: set<Text>): Json {
    if v.JObj? then JObj(Kept(v.members, exclude, |v.members|)) else v
  }

  /** Canonical bytes, dropping the excluded top-level keys. */
  method CanonicalBytes(v: Json, exclude: set<Text>) returns (bytes: Bytes)
    ensures bytes == Utf.Encode(Serialize(Payload(v, exclude)))
  {
    var payload := v;
    if v.JObj? {
      var filtered: seq<(Text, Json)> := [];
      for i := 0 to |v.members|
        invariant filtered == Kept(v.members, exclude, i)
      {
        var (key, value) := v.members[i];
        if key !in exclude {
          filtered := Assign(filtered, key, value);
        }
      }
      payload := JObj(filtered);
    }
    bytes := Utf.Encode(Serialize(payload));
  }

  /** An optional pointer field that is null or absent stays out of the preimage. */
  predicate Nullish(v: Json, key: Text) {
    v.JObj? && (key in Keys(v.members) ==> Get(v, key) == JNull)
  }

  function SigningExclusions(v: Json): set<Text> {
    {SIGNATURE}
    + (if Nullish(v, BUNDLE_ID) then {BUNDLE_ID} else {})
    + (if Nullish(v, CHANNEL) then {CHANNEL} else {})
    + (if Nullish(v, KEY_ID) then {KEY_ID} else {})
    + (if Nullish(v, EXPIRES_AT) then {EXPIRES_AT} else {})
  }

  /** The exact bytes a pointer's signature covers. */
  function SigningBytes(pointer: Json): Bytes {
    Utf.Encode(Serialize(Payload(pointer, SigningExclusions(pointer))))
  }

  // ------------------------------------------------------------- text is well formed

  lemma {:induction false} BodyIsWellFormed(s: Text)
    ensures Utf.WellFormed(Body(s))
    decreases |s|
  {
    if s == [] {
    } else if Utf.Paired(s) {
      BodyIsWellFormed(s[2..]);
      assert Body(s)[2..] == Body(s[2..]);
    } else {
      BodyIsWellFormed(s[1..]);
      EscapeIsWellFormed(s[0]);
      Utf.WellFormedConcat(Escape(s[0]), Body(s[1..]));
    }
  }

  lemma EscapeIsWellFormed(c: Unit)
    ensures Utf.WellFormed(Escape(c))
  {
    if ShortEscape(c).Some? || c < 0x20 || Utf.High(c) || Utf.Low(c) {
      Utf.PlainIsWellFormed(Escape(c));
    } else {
      assert Escape(c)[1..] == [];
    }
  }

  lemma PlainJoin(a: Text, sep: Unit, b: Text)
    requires Utf.WellFormed(a) && Utf.WellFormed(b) && sep < 0xD800
    ensures Utf.WellFormed(a + [sep] + b)
  {
    Utf.PlainIsWellFormed([sep]);
    Utf.WellFormedConcat(a, [sep]);
    Utf.WellFormedConcat(a + [sep], b);
  }

  lemma PlainWrap(open: Unit, body: Text, close: Unit)
    requires Utf.WellFormed(body) && open < 0xD800 && close < 0xD800
    ensures Utf.WellFormed([open] + body + [close])
  {
    Utf.PlainIsWellFormed([open]);
    Utf.PlainIsWellFormed([close]);
    Utf.WellFormedConcat([open], body);
    Utf.WellFormedConcat([open] + body, [close]);
  }

  lemma Appended(head: Text, sep: Unit, tail: Text)
    ensures head + [] == head && head + ([sep] + tail) == head + [sep] + tail
  {
  }

  lemma QuotedIsWellFormed(s: Text)
    ensures Utf.WellFormed(Quoted(s))
  {
    BodyIsWellFormed(s);
    PlainWrap(QUOTE, Body(s), QUOTE);
  }

  lemma {:induction false} SerializedIsWellFormed(v: Json)
    ensures Utf.WellFormed(Serialize(v))
    decreases v, 1, 0
  {
    match v
    case JStr(s) => QuotedIsWellFormed(s);
    case JArr(items) =>
      SerializedItemsAreWellFormed(v, 0);
      PlainWrap(OPEN_LIST, SerializeItems(v, 0), CLOSE_LIST);
    case JObj(members) =>
      SameMembers(Sort(Keys(members)), Keys(members));
      SerializedMembersAreWellFormed(v, Sort(Keys(members)));
      PlainWrap(OPEN_OBJECT, SerializeMembers(v, Sort(Keys(members))), CLOSE_OBJECT);
    case _ => Utf.PlainIsWellFormed(Serialize(v));
  }

  lemma {:induction false} SerializedItemsAreWellFormed(v: Json, i: nat)
    requires v.JArr? && i <= |v.items|
    ensures Utf.WellFormed(SerializeItems(v, i))
    decreases v, 0, |v.items| - i
  {
    if i < |v.items| {
      SerializedIsWellFormed(v.items[i]);
      SerializedItemsAreWellFormed(v, i + 1);
      PlainJoin(Serialize(v.items[i]), COMMA, SerializeItems(v, i + 1));
      Appended(Serialize(v.items[i]), COMMA, SerializeItems(v, i + 1));
    }
  }

  lemma {:induction false} SerializedMembersAreWellFormed(v: Json, keys: seq<Text>)
    requires v.JObj? && forall k :: k in keys ==> k in Keys(v.members)
    ensures Utf.WellFormed(SerializeMembers(v, keys))
    decreases v, 0, |keys|
  {
    if keys != [] {
      var member := Quoted(keys[0]) + [COLON] + Serialize(Get(v, keys[0]));
      QuotedIsWellFormed(keys[0]);
      SerializedIsWellFormed(Get(v, keys[0]));
      PlainJoin(Quoted(keys[0]), COLON, Serialize(Get(v, keys[0])));
      SerializedMembersAreWellFormed(v, keys[1..]);
      PlainJoin(member, COMMA, SerializeMembers(v, keys[1..]));
      Appended(member, COMMA, SerializeMembers(v, keys[1..]));
    }
  }

  /** Canonical bytes, too, are equal exactly for values equal up to key order. */
  lemma BytesIdentifyValue(v: Json, w: Json)
    requires Valid(v) && Valid(w)
    ensures Utf.Encode(Serialize(v)) == Utf.Encode(Serialize(w)) <==> Equiv(v, w)
  {
    TextIdentifiesValue(v, w);
    SerializedIsWellFormed(v);
    SerializedIsWellFormed(w);
    if Utf.Encode(Serialize(v)) == Utf.Encode(Serialize(w)) {
      Utf.EncodeInjective(Serialize(v), Serialize(w));
    }
  }

  // ------------------------------------------------------------------ what is signed

  /** A field the signature covers. */
  predicate Covered(pointer: Json, key: Text) {
    && pointer.JObj? && key in Keys(pointer.members)
    && key != PROTO && key !in SigningExclusions(pointer)
  }

  lemma {:induction false} KeptMembers(members: seq<(Text, Json)>, exclude: set<Text>, n: nat)
    requires n <= |members| && Distinct(Keys(members))
    ensures Distinct(Keys(Kept(members, exclude, n)))
    ensures forall m :: m in Kept(members, exclude, n) <==> m in members[..n] && m.0 != PROTO && m.0 !in exclude
  {
    if n > 0 {
      KeptMembers(members, exclude, n - 1);
      var before, after := Kept(members, exclude, n - 1), Kept(members, exclude, n);
      assert members[..n] == members[..n - 1] + [members[n - 1]];
      if after != before {
        forall i | 0 <= i < |before| ensures Keys(before)[i] != members[n - 1].0 {
          assert before[i] in members[..n - 1];
          var j :| 0 <= j < n - 1 && members[j] == before[i];
          assert Keys(members)[j] != Keys(members)[n - 1];
        }
      }
    }
  }

  lemma KeyHasMember(members: seq<(Text, Json)>, key: Text)
    requires Distinct(Keys(members))
    ensures key in Keys(members) <==> exists m :: m in members && m.0 == key
    ensures key in Keys(members) ==>
              forall m :: m in members && m.0 == key ==> m.1 == FindMember(members, key)
  {
    if key in Keys(members) {
      assert (key, FindMember(members, key)) in members;
      forall m | m in members && m.0 == key ensures m.1 == FindMember(members, key) {
        var i :| 0 <= i < |members| && members[i] == m;
        FindIsUnique(members, i);
      }
    }
    if m :| m in members && m.0 == key {
      var i :| 0 <= i < |members| && members[i] == m;
      assert Keys(members)[i] == key;
    }
  }

  lemma PayloadKeepsCovered(pointer: Json)
    requires pointer.JObj? && Valid(pointer)
    ensures var payload := Payload(pointer, SigningExclusions(pointer));
            && Valid(payload)
            && (forall k :: k in Keys(payload.members) <==> Covered(pointer, k))
            && (forall k :: Covered(pointer, k) ==> Get(payload, k) == Get(pointer, k))
  {
    var payload := Payload(pointer, SigningExclusions(pointer));
    KeptMembers(pointer.members, SigningExclusions(pointer), |pointer.members|);
    assert pointer.members[..|pointer.members|] == pointer.members;
    forall i | 0 <= i < |payload.members| ensures Valid(payload.members[i].1) {
      assert payload.members[i] in pointer.members;
    }
    forall k
      ensures k in Keys(payload.members) <==> Covered(pointer, k)
      ensures Covered(pointer, k) ==> Get(payload, k) == Get(pointer, k)
    {
      KeyHasMember(payload.members, k);
      KeyHasMember(pointer.members, k);
    }
  }

  /** Agreement on every covered field. */
  ghost predicate CoveredAgree(p: Json, q: Json) {
    && (forall k :: Covered(p, k) <==> Covered(q, k))
    && (forall k :: Covered(p, k) && Covered(q, k) ==> Equiv(Get(p, k), Get(q, k)))
  }

  lemma PayloadsEquivalent(p: Json, q: Json, a: Json, b: Json)
    requires a.JObj? && b.JObj?
    requires forall k :: k in Keys(a.members) <==> Covered(p, k)
    requires forall k :: k in Keys(b.members) <==> Covered(q, k)
    requires forall k :: Covered(p, k) ==> Get(a, k) == Get(p, k)
    requires forall k :: Covered(q, k) ==> Get(b, k) == Get(q, k)
    ensures Equiv(a, b) <==> CoveredAgree(p, q)
  {
    if CoveredAgree(p, q) {
      forall k | k in Keys(a.members) ensures k in Keys(b.members) && Equiv(Get(a, k), Get(b, k)) {
        assert Covered(p, k) && Covered(q, k);
      }
    }
    if Equiv(a, b) {
      forall k ensures Covered(p, k) <==> Covered(q, k) {
        assert k in Keys(a.members) <==> k in Keys(b.members);
      }
    }
  }

  /** Two pointers share their signing bytes exactly when they agree on every covered field: all
      but `signature`, with null and absent alike for the four optional ones. A property named
      `__proto__` is not covered either. */
  lemma SigningBytesAgree(p: Json, q: Json)
    requires p.JObj? && q.JObj? && Valid(p) && Valid(q)
    ensures SigningBytes(p) == SigningBytes(q) <==> CoveredAgree(p, q)
  {
    PayloadKeepsCovered(p);
    PayloadKeepsCovered(q);
    var a, b := Payload(p, SigningExclusions(p)), Payload(q, SigningExclusions(q));
    PayloadsEquivalent(p, q, a, b);
    BytesIdentifyValue(a, b);
  }

  function WithProto(p: Json, value: Json): Json
    requires p.JObj?
  {
    JObj(p.members + [(PROTO, value)])
  }

  lemma OthersUnchanged(p: Json, value: Json)
    requires p.JObj? && Valid(p) && Valid(value) && PROTO !in Keys(p.members)
    ensures Valid(WithProto(p, value))
    ensures forall k :: k != PROTO ==> (k in Keys(WithProto(p, value).members) <==> k in Keys(p.members))
    ensures forall k :: k != PROTO && k in Keys(p.members) ==> Get(WithProto(p, value), k) == Get(p, k)
  {
    var q := WithProto(p, value);
    assert Keys(q.members) == Keys(p.members) + [PROTO];
    forall k | k != PROTO
      ensures k in Keys(q.members) <==> k in Keys(p.members)
      ensures k in Keys(p.members) ==> Get(q, k) == Get(p, k)
    {
      KeyHasMember(p.members, k);
      KeyHasMember(q.members, k);
    }
  }

  lemma ProtoIsNoOptionalField()
    ensures PROTO != BUNDLE_ID && PROTO != CHANNEL && PROTO != KEY_ID && PROTO != EXPIRES_AT
  {
    assert PROTO[0] == 0x5F && BUNDLE_ID[0] == 0x62 && CHANNEL[0] == 0x63 && KEY_ID[0] == 0x6B && EXPIRES_AT[0] == 0x65;
  }

  lemma {:induction false} EquivRefl(v: Json)
    ensures Equiv(v, v)
  {
    match v
    case JArr(items) =>
      forall i | 0 <= i < |items| ensures Equiv(items[i], items[i]) { EquivRefl(items[i]); }
    case JObj(members) =>
      forall k | k in Keys(members) ensures Equiv(Get(v, k), Get(v, k)) { EquivRefl(Get(v, k)); }
    case _ =>
  }

  lemma ProtoIsNotExcluded(p: Json, value: Json)
    requires p.JObj? && Valid(p) && Valid(value) && PROTO !in Keys(p.members)
    ensures SigningExclusions(WithProto(p, value)) == SigningExclusions(p)
  {
    OthersUnchanged(p, value);
    ProtoIsNoOptionalField();
  }

  lemma ProtoIsNotCovered(p: Json, value: Json)
    requires p.JObj? && Valid(p) && Valid(value) && PROTO !in Keys(p.members)
    ensures CoveredAgree(WithProto(p, value), p)
  {
    var q := WithProto(p, value);
    OthersUnchanged(p, value);
    ProtoIsNotExcluded(p, value);
    forall k
      ensures Covered(q, k) <==> Covered(p, k)
      ensures Covered(q, k) && Covered(p, k) ==> Equiv(Get(q, k), Get(p, k))
    {
      if Covered(q, k) && Covered(p, k) {
        EquivRefl(Get(p, k));
      }
    }
  }

  /** So adding a `__proto__` property changes nothing that is signed. */
  lemma ProtoIsNotSigned(p: Json, value: Json)
    requires p.JObj? && Valid(p) && Valid(value) && PROTO !in Keys(p.members)
    ensures SigningBytes(WithProto(p, value)) == SigningBytes(p)
  {
    OthersUnchanged(p, value);
    ProtoIsNotCovered(p, value);
    SigningBytesAgree(WithProto(p, value), p);
  }

  // ------------------------------------------------------------ release identities

  function TextOrNull(f: Option<Text>): Json {
    if f.Some? then JStr(f.value) else JNull
  }

  function NumberOrNull(f: Option<int>): Json {
    if f.Some? then JNum(f.value) else JNull
  }

  function IdentityJson(id: Floor.Identity): Json {
    JArr([JStr(id.manifestHash), JStr(id.version), NumberOrNull(id.sequence), JStr(id.signature),
          TextOrNull(id.bundleId), TextOrNull(id.channel), TextOrNull(id.keyId), NumberOrNull(id.expiresAt)])
  }

  lemma ScalarsEquiv(a: Floor.Identity, b: Floor.Identity)
    requires Equiv(IdentityJson(a), IdentityJson(b))
    ensures forall i :: 0 <= i < 8 ==> IdentityJson(a).items[i] == IdentityJson(b).items[i]
  {
    forall i | 0 <= i < 8 ensures IdentityJson(a).items[i] == IdentityJson(b).items[i] {
      var x := IdentityJson(a).items[i];
      assert Equiv(x, IdentityJson(b).items[i]);
      assert x.JStr? || x.JNum? || x.JNull?;
    }
  }

  /** The identity text names one release: distinct identities never share it. */
  lemma IdentityTextInjective(a: Floor.Identity, b: Floor.Identity)
    ensures Serialize(IdentityJson(a)) == Serialize(IdentityJson(b)) <==> a == b
  {
    TextIdentifiesValue(IdentityJson(a), IdentityJson(b));
    if Equiv(IdentityJson(a), IdentityJson(b)) {
      ScalarsEquiv(a, b);
      var x, y := IdentityJson(a).items, IdentityJson(b).items;
      assert x[0] == y[0] && x[1] == y[1] && x[2] == y[2] && x[3] == y[3];
      assert x[4] == y[4] && x[5] == y[5] && x[6] == y[6] && x[7] == y[7];
    }
    if a == b {
      EquivRefl(IdentityJson(a));
    }
  }
}
