/**
 * Keyset pagination (`list` in src/sqlite/database.ts) over a table that others may change between
 * pages. Keys are compared as SQLite compares them: by their UTF-8 bytes.
 */
module StatePages {
  import opened Prelude
  import Canonical
  import Utf

  /** A key's bytes. */
  type Key = seq<Unit>

  /** The keys of one namespace, as the primary key's B-tree holds them. */
  predicate IsTable(t: seq<Key>) {
    Canonical.Sorted(t)
  }

  /** The bytes of U+10FFFF. */
  const LAST_POINT: Key := [0xF4, 0x8F, 0xBF, 0xBF]

  function UpperBound(prefix: Key): Key {
    prefix + LAST_POINT
  }

  predicate InRange(key: Key, prefix: Option<Key>) {
    prefix.Some? ==> !Canonical.Less(key, prefix.value) && Canonical.Less(key, UpperBound(prefix.value))
  }

  predicate Eligible(key: Key, prefix: Option<Key>, after: Option<Key>) {
    InRange(key, prefix) && (after.Some? ==> Canonical.Less(after.value, key))
  }

  function Select(table: seq<Key>, prefix: Option<Key>, after: Option<Key>): (r: seq<Key>)
    ensures forall k :: k in r <==> k in table && Eligible(k, prefix, after)
  {
    if table == [] then []
    else
      var front, last := Select(table[..|table| - 1], prefix, after), table[|table| - 1];
      if Eligible(last, prefix, after) then front + [last] else front
  }

  datatype Page = Page(keys: seq<Key>, nextKey: Option<Key>)

  function PageOf(table: seq<Key>, prefix: Option<Key>, after: Option<Key>, limit: nat): Page
    requires limit > 0
  {
    var found := Select(table, prefix, after);
    if |found| > limit then Page(found[..limit], Some(found[limit - 1])) else Page(found, None)
  }

  /** The query: rows in key order, at most `count` of them. */
  method Query(table: seq<Key>, prefix: Option<Key>, after: Option<Key>, count: nat) returns (found: seq<Key>)
    ensures found <= Select(table, prefix, after)
    ensures |found| < count ==> found == Select(table, prefix, after)
    ensures |found| <= count
  {
    found := [];
    var i := 0;
    while i < |table| && |found| < count
      invariant i <= |table| && |found| <= count
      invariant found == Select(table[..i], prefix, after)
    {
      OneMoreRow(table, i, prefix, after);
      if Eligible(table[i], prefix, after) {
        found := found + [table[i]];
      }
      i := i + 1;
    }
    SelectPrefix(table, i, prefix, after);
    assert i == |table| ==> table[..i] == table;
  }

  lemma OneMoreRow(table: seq<Key>, i: nat, prefix: Option<Key>, after: Option<Key>)
    requires i < |table|
    ensures Select(table[..i + 1], prefix, after) ==
              Select(table[..i], prefix, after) + if Eligible(table[i], prefix, after) then [table[i]] else []
  {
    assert table[..i + 1][..i] == table[..i];
  }

  /** One row more than asked for, then the cut. */
  method List(table: seq<Key>, prefix: Option<Key>, after: Option<Key>, limit: nat) returns (page: Page)
    requires limit > 0
    ensures page == PageOf(table, prefix, after, limit)
  {
    var found := Query(table, prefix, after, limit + 1);
    if |found| > limit {
      page := Page(found[..limit], Some(found[limit - 1]));
    } else {
      page := Page(found, None);
    }
  }

  lemma {:induction false} SelectPrefix(table: seq<Key>, n: nat, prefix: Option<Key>, after: Option<Key>)
    requires n <= |table|
    ensures Select(table[..n], prefix, after) <= Select(table, prefix, after)
  {
    if n == |table| {
      assert table[..n] == table;
    } else {
      SelectPrefix(table[..|table| - 1], n, prefix, after);
      assert table[..|table| - 1][..n] == table[..n];
    }
  }

  lemma {:induction false} SelectSorted(table: seq<Key>, prefix: Option<Key>, after: Option<Key>)
    requires IsTable(table)
    ensures Canonical.Sorted(Select(table, prefix, after))
  {
    if table != [] {
      var front := table[..|table| - 1];
      SelectSorted(front, prefix, after);
      var kept := Select(front, prefix, after);
      forall i | 0 <= i < |kept| ensures Canonical.Less(kept[i], table[|table| - 1]) {
        assert kept[i] in kept && kept[i] in front;
        var j :| 0 <= j < |front| && front[j] == kept[i];
        assert table[j] == kept[i];
      }
    }
  }

  // ---------------------------------------------------------------- following the pages

  datatype Cursor = At(after: Option<Key>) | Finished

  datatype Listing = Listing(keys: seq<Key>, cursor: Cursor)

  /** The pages read so far, each from the table as it was then. */
  function Follow(tables: seq<seq<Key>>, prefix: Option<Key>, limit: nat): Listing
    requires limit > 0
  {
    if tables == [] then Listing([], At(None))
    else
      var before := Follow(tables[..|tables| - 1], prefix, limit);
      if before.cursor.Finished? then before
      else
        var page := PageOf(tables[|tables| - 1], prefix, before.cursor.after, limit);
        Listing(before.keys + page.keys, if page.nextKey.Some? then At(page.nextKey) else Finished)
  }

  ghost predicate AllTables(tables: seq<seq<Key>>) {
    forall t :: 0 <= t < |tables| ==> IsTable(tables[t])
  }

  /** The cursor stands on the last key listed. */
  predicate CursorOk(x: Listing) {
    x.cursor.At? ==>
      if x.cursor.after.None? then x.keys == [] else x.keys != [] && x.keys[|x.keys| - 1] == x.cursor.after.value
  }

  /** Everything in range up to the cursor, that was always there, has been listed. */
  ghost predicate Covers(x: Listing, key: Key) {
    match x.cursor
    case Finished => key in x.keys
    case At(None) => true
    case At(Some(a)) => !Canonical.Less(a, key) ==> key in x.keys
  }

  lemma PageIsSorted(table: seq<Key>, prefix: Option<Key>, after: Option<Key>, limit: nat)
    requires IsTable(table) && limit > 0
    ensures var p := PageOf(table, prefix, after, limit);
            && Canonical.Sorted(p.keys)
            && (forall k :: k in p.keys ==> k in table && Eligible(k, prefix, after))
            && (p.nextKey.Some? ==> |p.keys| == limit && p.keys[limit - 1] == p.nextKey.value)
            && (forall k :: k in table && Eligible(k, prefix, after)
                            && (p.nextKey.Some? ==> !Canonical.Less(p.nextKey.value, k))
                  ==> k in p.keys)
  {
    SelectSorted(table, prefix, after);
    var found := Select(table, prefix, after);
    if |found| > limit {
      forall k | k in found && !Canonical.Less(found[limit - 1], k) ensures k in found[..limit] {
        var i :| 0 <= i < |found| && found[i] == k;
        assert i < limit;
      }
    }
  }

  /** Appending a page behind the cursor keeps the order. */
  lemma PageFollows(keys: seq<Key>, page: seq<Key>)
    requires Canonical.Sorted(keys) && Canonical.Sorted(page)
    requires keys != [] ==> forall k :: k in page ==> Canonical.Less(keys[|keys| - 1], k)
    ensures Canonical.Sorted(keys + page)
  {
    forall i, j | 0 <= i < |keys| <= j < |keys| + |page| ensures Canonical.Less((keys + page)[i], (keys + page)[j]) {
      assert page[j - |keys|] in page;
      if i < |keys| - 1 {
        Canonical.LessIsTransitive(keys[i], keys[|keys| - 1], page[j - |keys|]);
      }
    }
  }

  /** The listing is in key order without repeats, and every key in it was there and in range. */
  lemma {:induction false} ListedInOrderWithoutRepeats(tables: seq<seq<Key>>, prefix: Option<Key>, limit: nat)
    requires AllTables(tables) && limit > 0
    ensures var x := Follow(tables, prefix, limit);
            && Canonical.Sorted(x.keys) && CursorOk(x)
            && forall k :: k in x.keys ==> InRange(k, prefix) && exists t :: 0 <= t < |tables| && k in tables[t]
  {
    if tables != [] {
      var front, last := tables[..|tables| - 1], tables[|tables| - 1];
      ListedInOrderWithoutRepeats(front, prefix, limit);
      var before := Follow(front, prefix, limit);
      forall k | k in before.keys ensures exists t :: 0 <= t < |tables| && k in tables[t] {
        var t :| 0 <= t < |front| && k in front[t];
        assert k in tables[t];
      }
      if before.cursor.At? {
        PageIsSorted(last, prefix, before.cursor.after, limit);
        PageFollows(before.keys, PageOf(last, prefix, before.cursor.after, limit).keys);
        assert last == tables[|tables| - 1];
      }
    }
  }

  lemma {:induction false} CoveredSoFar(tables: seq<seq<Key>>, prefix: Option<Key>, limit: nat, key: Key)
    requires AllTables(tables) && limit > 0 && InRange(key, prefix)
    requires forall t :: 0 <= t < |tables| ==> key in tables[t]
    ensures Covers(Follow(tables, prefix, limit), key)
  {
    if tables != [] {
      var front, last := tables[..|tables| - 1], tables[|tables| - 1];
      assert forall t :: 0 <= t < |front| ==> front[t] == tables[t];
      CoveredSoFar(front, prefix, limit, key);
      var before := Follow(front, prefix, limit);
      if before.cursor.At? {
        PageIsSorted(last, prefix, before.cursor.after, limit);
        assert key in last;
      }
    }
  }

  /** Once the last page is read, every key in range that was present throughout has been listed. */
  lemma NothingIsMissed(tables: seq<seq<Key>>, prefix: Option<Key>, limit: nat, key: Key)
    requires AllTables(tables) && limit > 0 && InRange(key, prefix)
    requires forall t :: 0 <= t < |tables| ==> key in tables[t]
    requires Follow(tables, prefix, limit).cursor.Finished?
    ensures key in Follow(tables, prefix, limit).keys
  {
    CoveredSoFar(tables, prefix, limit, key);
  }

  // -------------------------------------------------------------------- termination

  lemma {:induction false} EachPageListsMore(tables: seq<seq<Key>>, prefix: Option<Key>, limit: nat)
    requires AllTables(tables) && limit > 0 && Follow(tables, prefix, limit).cursor.At?
    ensures |Follow(tables, prefix, limit).keys| >= |tables| * limit
  {
    if tables != [] {
      var front := tables[..|tables| - 1];
      EachPageListsMore(front, prefix, limit);
      PageIsSorted(tables[|tables| - 1], prefix, Follow(front, prefix, limit).cursor.after, limit);
    }
  }

  lemma {:induction false} SortedKeysAreDistinct(keys: seq<Key>, universe: set<Key>)
    requires Canonical.Sorted(keys) && forall k :: k in keys ==> k in universe
    ensures |keys| <= |universe|
  {
    if keys != [] {
      var last := keys[|keys| - 1];
      forall k | k in keys[..|keys| - 1] ensures k in universe - {last} {
        Canonical.LessIsTotal(last, last);
      }
      SortedKeysAreDistinct(keys[..|keys| - 1], universe - {last});
    }
  }

  /** A page that has a next key leaves a key behind its last one. */
  lemma OneMoreIsLeft(table: seq<Key>, prefix: Option<Key>, after: Option<Key>, limit: nat) returns (key: Key)
    requires IsTable(table) && limit > 0 && PageOf(table, prefix, after, limit).nextKey.Some?
    ensures key in table && Canonical.Less(PageOf(table, prefix, after, limit).nextKey.value, key)
  {
    var found := Select(table, prefix, after);
    SelectSorted(table, prefix, after);
    key := found[limit];
    assert key in found;
  }

  /** Whatever is inserted and deleted within a finite set of keys: as long as paging is not over, its pages
      hold fewer keys than the set, so it is over within as many pages as there are keys, or one. */
  lemma PagingTerminates(tables: seq<seq<Key>>, prefix: Option<Key>, limit: nat, universe: set<Key>)
    requires AllTables(tables) && limit > 0
    requires forall t, k :: 0 <= t < |tables| && k in tables[t] ==> k in universe
    ensures Follow(tables, prefix, limit).cursor.Finished? || tables == [] || |tables| * limit < |universe|
  {
    var x := Follow(tables, prefix, limit);
    if x.cursor.At? && tables != [] {
      EachPageListsMore(tables, prefix, limit);
      ListedInOrderWithoutRepeats(tables, prefix, limit);
      var n := |tables| - 1;
      ListedInOrderWithoutRepeats(tables[..n], prefix, limit);
      var key := OneMoreIsLeft(tables[n], prefix, Follow(tables[..n], prefix, limit).cursor.after, limit);
      PageFollows(x.keys, [key]);
      forall k | k in x.keys + [key] ensures k in universe {
        if k in x.keys {
          var t :| 0 <= t < |tables| && k in tables[t];
        }
      }
      SortedKeysAreDistinct(x.keys + [key], universe);
    }
  }

  // ------------------------------------------------------------------- the upper bound

  lemma {:induction false} LessBehindPrefix(prefix: Key, a: Key, b: Key)
    ensures Canonical.Less(prefix + a, prefix + b) <==> Canonical.Less(a, b)
  {
    if prefix == [] {
      assert prefix + a == a && prefix + b == b;
    } else {
      LessBehindPrefix(prefix[1..], a, b);
      assert (prefix + a)[1..] == prefix[1..] + a && (prefix + b)[1..] == prefix[1..] + b;
    }
  }

  lemma {:induction false} LongerIsNotLess(prefix: Key, rest: Key)
    ensures !Canonical.Less(prefix + rest, prefix)
  {
    if prefix == [] {
    } else {
      LongerIsNotLess(prefix[1..], rest);
      assert (prefix + rest)[1..] == prefix[1..] + rest;
    }
  }

  /** A key with the prefix is in range exactly when what follows the prefix is below U+10FFFF. */
  lemma RangeOfAPrefix(prefix: Key, rest: Key)
    ensures InRange(prefix + rest, Some(prefix)) <==> Canonical.Less(rest, LAST_POINT)
  {
    LongerIsNotLess(prefix, rest);
    LessBehindPrefix(prefix, rest, LAST_POINT);
  }

  const HIGHEST: Text := [0xDBFF, 0xDFFF]

  /** The first code point decides: all below U+10FFFF sort before it. */
  lemma FirstPointDecides(rest: Text)
    requires Utf.WellFormed(rest)
    ensures Canonical.Less(Utf.Encode(rest), LAST_POINT) <==> !(HIGHEST <= rest)
  {
    if rest == [] {
    } else if Utf.Paired(rest) {
      PairBelow(rest[0], rest[1], Utf.Encode(rest[2..]));
    } else {
      UnitBelow(rest[0], Utf.Encode(rest[1..]));
    }
  }

  lemma UnitBelow(c: Unit, after: Bytes)
    ensures Canonical.Less(Utf.EncodePoint(c) + after, LAST_POINT)
  {
  }

  lemma PairBelow(h: Unit, l: Unit, after: Bytes)
    requires Utf.High(h) && Utf.Low(l)
    ensures Canonical.Less(Utf.EncodePoint(Utf.PairPoint(h, l)) + after, LAST_POINT) <==> !(h == 0xDBFF && l == 0xDFFF)
  {
    var p := Utf.PairPoint(h, l);
    var b: Key := Utf.EncodePoint(p) + after;
    FourUnits(b, LAST_POINT, after);
    Utf.FourDigits(p);
    Utf.PairSplits(h - 0xD800, l - 0xDC00);
  }

  /** Comparing by four leading units. */
  lemma FourUnits(a: Key, b: Key, after: Key)
    requires |a| == 4 + |after| && |b| == 4
    ensures Canonical.Less(a, b) <==>
              a[0] < b[0] || (a[0] == b[0] &&
                (a[1] < b[1] || (a[1] == b[1] && (a[2] < b[2] || (a[2] == b[2] && a[3] < b[3])))))
  {
    assert a[1..][1..] == a[2..] && a[2..][1..] == a[3..] && b[1..][1..] == b[2..] && b[2..][1..] == b[3..];
    assert b[3..][1..] == [];
    assert Canonical.Less(a[3..], b[3..]) <==> a[3] < b[3];
    assert Canonical.Less(a[2..], b[2..]) <==> a[2] < b[2] || (a[2] == b[2] && a[3] < b[3]);
    assert Canonical.Less(a[1..], b[1..]) <==> a[1] < b[1] || (a[1] == b[1] && Canonical.Less(a[2..], b[2..]));
  }

  lemma {:induction false} EncodeConcat(a: Text, b: Text)
    requires Utf.WellFormed(a)
    ensures Utf.Encode(a + b) == Utf.Encode(a) + Utf.Encode(b)
    decreases |a|
  {
    if a == [] {
      assert a + b == b;
    } else if Utf.Paired(a) {
      EncodeConcat(a[2..], b);
      Behind(Utf.EncodePoint(Utf.PairPoint(a[0], a[1])), Utf.Encode(a[2..]), Utf.Encode(b));
      assert (a + b)[2..] == a[2..] + b;
    } else {
      EncodeConcat(a[1..], b);
      Behind(Utf.EncodePoint(a[0]), Utf.Encode(a[1..]), Utf.Encode(b));
      assert (a + b)[1..] == a[1..] + b;
    }
  }

  lemma Behind(x: Bytes, y: Bytes, z: Bytes)
    ensures x + (y + z) == x + y + z
  {
  }

  /** A key that continues the prefix is listed under it exactly when it does not continue with U+10FFFF. */
  lemma PrefixFindsAllButTheHighest(prefix: Text, rest: Text)
    requires Utf.WellFormed(prefix) && Utf.WellFormed(rest)
    ensures InRange(Utf.Encode(prefix + rest), Some(Utf.Encode(prefix))) <==> !(HIGHEST <= rest)
  {
    EncodeConcat(prefix, rest);
    RangeOfAPrefix(Utf.Encode(prefix), Utf.Encode(rest));
    FirstPointDecides(rest);
  }

  // ------------------------------------------------------------------ no foreign keys

  /** Between a prefix and its upper bound there are only keys that start with it. */
  lemma {:induction false} InRangeStarts(prefix: Key, key: Key)
    requires InRange(key, Some(prefix))
    ensures prefix <= key
  {
    if prefix == [] {
    } else {
      assert UpperBound(prefix)[1..] == UpperBound(prefix[1..]);
      assert key != [] && key[0] == prefix[0];
      InRangeStarts(prefix[1..], key[1..]);
      assert prefix == [prefix[0]] + prefix[1..] && key == [key[0]] + key[1..];
    }
  }

  /** So a listing by prefix holds no foreign key. */
  lemma PrefixListsOnlyItsOwn(tables: seq<seq<Key>>, prefix: Key, limit: nat, key: Key)
    requires AllTables(tables) && limit > 0 && key in Follow(tables, Some(prefix), limit).keys
    ensures prefix <= key
  {
    ListedInOrderWithoutRepeats(tables, Some(prefix), limit);
    InRangeStarts(prefix, key);
  }

  /** The units of the first code point. */
  function First(t: Text): Text
    requires t != []
  {
    if Utf.Paired(t) then t[..2] else t[..1]
  }

  function FirstBytes(t: Text): Bytes
    requires t != []
  {
    if Utf.Paired(t) then Utf.EncodePoint(Utf.PairPoint(t[0], t[1])) else Utf.EncodePoint(t[0])
  }

  lemma FirstDecodes(t: Text, after: Bytes)
    requires t != [] && Utf.WellFormed(t)
    ensures FirstBytes(t) + after != [] && Utf.DecodeFirst(FirstBytes(t) + after) == (First(t), |FirstBytes(t)|)
  {
    if Utf.Paired(t) {
      Utf.PairDecodes(t[0], t[1], after);
      assert t[..2] == [t[0], t[1]];
    } else {
      Utf.PointDecodes(t[0], after);
      assert t[..1] == [t[0]];
    }
  }

  lemma FirstEncodes(t: Text)
    requires t != [] && Utf.WellFormed(t)
    ensures Utf.Encode(t) == FirstBytes(t) + Utf.Encode(t[|First(t)|..]) && Utf.WellFormed(t[|First(t)|..])
  {
  }

  lemma PrefixBehind(x: Key, a: Key, b: Key)
    ensures x + a <= x + b <==> a <= b
  {
    assert (x + a)[|x|..] == a && (x + b)[|x|..] == b;
    if x + a <= x + b {
      assert (x + b)[..|x + a|] == x + a;
      forall i | 0 <= i < |a| ensures a[i] == b[i] {
        assert (x + a)[|x| + i] == (x + b)[|x| + i];
      }
    }
  }

  lemma SplitBehind(k: Key, head: Key, tail: Key)
    requires head + tail <= k
    ensures k == head + k[|head|..] && tail <= k[|head|..]
  {
    assert k[..|head + tail|] == head + tail;
    assert k[|head|..][..|tail|] == k[..|head + tail|][|head|..] == tail;
  }

  /** The same leading bytes are the same leading code point. */
  lemma SameFirst(prefix: Text, key: Text, a: Bytes, b: Bytes)
    requires prefix != [] && key != [] && Utf.WellFormed(prefix) && Utf.WellFormed(key)
    requires FirstBytes(prefix) + a <= FirstBytes(key) + b
    ensures First(key) == First(prefix) && a <= b
  {
    var k := FirstBytes(key) + b;
    SplitBehind(k, FirstBytes(prefix), a);
    FirstDecodes(prefix, k[|FirstBytes(prefix)|..]);
    FirstDecodes(key, b);
    assert k[|FirstBytes(key)|..] == b;
  }

  lemma OnlyEmptyEncodesEmpty(t: Text)
    requires t != [] && Utf.WellFormed(t)
    ensures |Utf.Encode(t)| > 0
  {
    FirstDecodes(t, []);
    FirstEncodes(t);
  }

  lemma FirstPeels(prefix: Text, key: Text)
    requires prefix != [] && key != [] && Utf.WellFormed(prefix) && Utf.WellFormed(key)
    requires Utf.Encode(prefix) <= Utf.Encode(key)
    ensures First(key) == First(prefix)
    ensures Utf.Encode(prefix[|First(prefix)|..]) <= Utf.Encode(key[|First(key)|..])
  {
    var a, b := Utf.Encode(prefix[|First(prefix)|..]), Utf.Encode(key[|First(key)|..]);
    assert FirstBytes(prefix) + a <= FirstBytes(key) + b by {
      FirstEncodes(prefix);
      FirstEncodes(key);
    }
    SameFirst(prefix, key, a, b);
  }

  lemma Rejoined(prefix: Text, key: Text, n: nat)
    requires n <= |prefix| && n <= |key| && prefix[..n] == key[..n] && prefix[n..] <= key[n..]
    ensures prefix <= key
  {
    assert prefix == prefix[..n] + prefix[n..] && key == key[..n] + key[n..];
    PrefixBehind(prefix[..n], prefix[n..], key[n..]);
  }

  /** Bytes that start with another text's bytes encode a text that starts with it. */
  lemma {:induction false} StartsAsText(prefix: Text, key: Text)
    requires Utf.WellFormed(prefix) && Utf.WellFormed(key) && Utf.Encode(prefix) <= Utf.Encode(key)
    ensures prefix <= key
    decreases |prefix|
  {
    if prefix != [] {
      var n := |First(prefix)|;
      OnlyEmptyEncodesEmpty(prefix);
      FirstPeels(prefix, key);
      FirstEncodes(prefix);
      FirstEncodes(key);
      StartsAsText(prefix[n..], key[n..]);
      Rejoined(prefix, key, n);
    }
  }

  lemma {:induction false} RestIsWellFormed(prefix: Text, rest: Text)
    requires Utf.WellFormed(prefix) && Utf.WellFormed(prefix + rest)
    ensures Utf.WellFormed(rest)
    decreases |prefix|
  {
    if prefix == [] {
      assert prefix + rest == rest;
    } else {
      var n := |First(prefix)|;
      FirstEncodes(prefix);
      assert (prefix + rest)[n..] == prefix[n..] + rest;
      RestIsWellFormed(prefix[n..], rest);
    }
  }

  lemma RangeOfATextPrefix(prefix: Text, key: Text)
    requires Utf.WellFormed(prefix) && Utf.WellFormed(key) && prefix <= key
    ensures InRange(Utf.Encode(key), Some(Utf.Encode(prefix))) <==> !(HIGHEST <= key[|prefix|..])
  {
    var rest := key[|prefix|..];
    assert key == prefix + rest;
    RestIsWellFormed(prefix, rest);
    PrefixFindsAllButTheHighest(prefix, rest);
  }

  /** A prefix query finds exactly the keys that start with the prefix and do not go on with U+10FFFF. */
  lemma PrefixFindsExactly(prefix: Text, key: Text)
    requires Utf.WellFormed(prefix) && Utf.WellFormed(key)
    ensures InRange(Utf.Encode(key), Some(Utf.Encode(prefix))) <==> prefix <= key && !(HIGHEST <= key[|prefix|..])
  {
    if prefix <= key {
      RangeOfATextPrefix(prefix, key);
    } else if InRange(Utf.Encode(key), Some(Utf.Encode(prefix))) {
      InRangeStarts(Utf.Encode(prefix), Utf.Encode(key));
      StartsAsText(prefix, key);
    }
  }
}
