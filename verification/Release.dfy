/**
 * Release versions and the refusal of downgrades (src/engine/sync.ts): which pointers may replace
 * the active one.
 */
module Release {
  import opened Prelude
  import Canonical
  import Floor
  import Zstd

  const MAX_VERSION_CHARS: nat := 200
  const DOT: Unit := 0x2E
  const LETTER_V: Unit := 0x76

  // -------------------------------------------------------------------- versions

  /** `text.split(separator)` for a separator of one unit. */
  function Split(t: Text, separator: Unit): (parts: seq<Text>)
    ensures parts != []
  {
    if t == [] then [[]]
    else
      var rest := Split(t[1..], separator);
      if t[0] == separator then [[]] + rest else [[t[0]] + rest[0]] + rest[1..]
  }

  /** `\d+(?:\.\d+)*` up to the end. */
  predicate Dotted(t: Text)
    decreases |t|
  {
    var n := Canonical.DigitRun(t);
    n > 0 && (n == |t| || (t[n] == DOT && Dotted(t[n + 1..])))
  }

  function WithoutV(t: Text): Text {
    if t != [] && t[0] == LETTER_V then t[1..] else t
  }

  /** `Number(part)` of a digit string: the nearest double. */
  function NumberOf(part: Text): nat {
    Zstd.ToNumber(Canonical.DigitsValue(part))
  }

  function ParseRelease(version: Text): Option<seq<nat>> {
    if |version| > MAX_VERSION_CHARS || !Dotted(WithoutV(version)) then None
    else
      var parts := Split(WithoutV(version), DOT);
      Some(seq(|parts|, k requires 0 <= k < |parts| => NumberOf(parts[k])))
  }

  predicate AllDigits(t: Text) {
    t != [] && forall i :: 0 <= i < |t| ==> Canonical.Digit(t[i])
  }

  /** What passes the pattern splits into digit strings only, so no component is NaN. */
  lemma {:induction false} MatchedVersionsAreNumbers(t: Text)
    ensures Dotted(t) <==> forall k :: 0 <= k < |Split(t, DOT)| ==> AllDigits(Split(t, DOT)[k])
    decreases |t|
  {
    var n := Canonical.DigitRun(t);
    DigitRunSplits(t);
    var parts := Split(t, DOT);
    if n == |t| {
    } else if t[n] == DOT {
      MatchedVersionsAreNumbers(t[n + 1..]);
      var rest := Split(t[n + 1..], DOT);
      assert parts == [t[..n]] + rest;
      assert forall k :: 0 <= k < |rest| ==> rest[k] == parts[k + 1];
    } else {
      assert !Canonical.Digit(t[n]) && n < |parts[0]| && parts[0][n] == t[n];
    }
  }

  /** The first part of a split begins with the leading digits, and is exactly them before a dot. */
  lemma {:induction false} DigitRunSplits(t: Text)
    ensures var n := Canonical.DigitRun(t);
            (forall i :: 0 <= i < n ==> Canonical.Digit(t[i])) && (n < |t| ==> !Canonical.Digit(t[n]))
            && (n == |t| ==> Split(t, DOT) == [t])
            && (n < |t| && t[n] == DOT ==> Split(t, DOT) == [t[..n]] + Split(t[n + 1..], DOT))
            && (n < |t| && t[n] != DOT ==> n < |Split(t, DOT)[0]| && Split(t, DOT)[0][n] == t[n])
  {
    if t != [] && Canonical.Digit(t[0]) {
      DigitRunSplits(t[1..]);
      var n := Canonical.DigitRun(t[1..]);
      assert t == [t[0]] + t[1..];
      if n + 1 < |t| {
        assert t[1..][n + 1..] == t[n + 2..];
        assert [t[0]] + t[1..][..n] == t[..n + 1];
      }
    }
  }

  // ------------------------------------------------------------------- comparison

  function Component(a: seq<nat>, k: nat): nat {
    if k < |a| then a[k] else 0
  }

  /** Lexicographic order on components, short versions padded with zeros. */
  ghost predicate Older(a: seq<nat>, b: seq<nat>) {
    exists k: nat :: Component(a, k) < Component(b, k) && AgreeBelow(a, b, k)
  }

  ghost predicate AgreeBelow(a: seq<nat>, b: seq<nat>, k: nat) {
    forall j: nat :: j < k ==> Component(a, j) == Component(b, j)
  }

  ghost predicate Equal(a: seq<nat>, b: seq<nat>) {
    forall j: nat :: Component(a, j) == Component(b, j)
  }

  /** The difference at the first component that differs. */
  function Difference(a: seq<nat>, b: seq<nat>, k: nat): int
    decreases Max(|a|, |b|) - k
  {
    if k >= |a| && k >= |b| then 0
    else if Component(a, k) != Component(b, k) then Component(a, k) - Component(b, k)
    else Difference(a, b, k + 1)
  }

  lemma {:induction false} DifferenceMeans(a: seq<nat>, b: seq<nat>, k: nat)
    requires AgreeBelow(a, b, k)
    ensures Difference(a, b, k) < 0 <==> Older(a, b)
    ensures Difference(a, b, k) > 0 <==> Older(b, a)
    ensures Difference(a, b, k) == 0 <==> Equal(a, b)
    decreases Max(|a|, |b|) - k
  {
    if k >= |a| && k >= |b| {
      assert forall j: nat :: Component(a, j) == Component(b, j);
    } else if Component(a, k) == Component(b, k) {
      DifferenceMeans(a, b, k + 1);
    } else {
      assert AgreeBelow(b, a, k);
      assert Component(a, k) < Component(b, k) ==> Older(a, b) && !Older(b, a);
      assert Component(b, k) < Component(a, k) ==> Older(b, a) && !Older(a, b);
    }
  }

  method CompareRelease(a: seq<nat>, b: seq<nat>) returns (order: int)
    ensures order < 0 <==> Older(a, b)
    ensures order > 0 <==> Older(b, a)
    ensures order == 0 <==> Equal(a, b)
    ensures order == Difference(a, b, 0)
  {
    DifferenceMeans(a, b, 0);
    var index := 0;
    while index < Max(|a|, |b|)
      invariant Difference(a, b, 0) == Difference(a, b, index)
    {
      var here: int := if index < |a| then a[index] else 0;
      var there: int := if index < |b| then b[index] else 0;
      var difference := here - there;
      if difference != 0 {
        return difference;
      }
      index := index + 1;
    }
    return 0;
  }

  /** The comparison is a total preorder. */
  lemma OlderIsATotalPreorder(a: seq<nat>, b: seq<nat>, c: seq<nat>)
    ensures !Older(a, a)
    ensures Older(a, b) || Older(b, a) || Equal(a, b)
    ensures !(Older(a, b) && Older(b, a)) && !(Older(a, b) && Equal(a, b))
    ensures Older(a, b) && Older(b, c) ==> Older(a, c)
    ensures !Older(b, a) && !Older(c, b) ==> !Older(c, a)
  {
    DifferenceMeans(a, b, 0);
    DifferenceMeans(a, a, 0);
    OlderIsTransitive(a, b, c);
    NotOlderIsTransitive(a, b, c);
  }

  lemma OlderIsTransitive(a: seq<nat>, b: seq<nat>, c: seq<nat>)
    ensures Older(a, b) && Older(b, c) ==> Older(a, c)
  {
    if Older(a, b) && Older(b, c) {
      var j: nat :| Component(a, j) < Component(b, j) && AgreeBelow(a, b, j);
      var k: nat :| Component(b, k) < Component(c, k) && AgreeBelow(b, c, k);
      var m := if j < k then j else k;
      assert AgreeBelow(a, c, m);
      assert Component(a, m) < Component(c, m);
    }
  }

  lemma NotOlderIsTransitive(a: seq<nat>, b: seq<nat>, c: seq<nat>)
    ensures !Older(b, a) && !Older(c, b) ==> !Older(c, a)
  {
    if Older(c, a) && !Older(b, a) {
      OlderThanAnEarlierOne(a, b, c);
    }
  }

  lemma OlderThanAnEarlierOne(a: seq<nat>, b: seq<nat>, c: seq<nat>)
    requires Older(c, a) && !Older(b, a)
    ensures Older(c, b)
  {
    DifferenceMeans(a, b, 0);
    if Older(a, b) {
      OlderIsTransitive(c, a, b);
    } else {
      var k: nat :| Component(c, k) < Component(a, k) && AgreeBelow(c, a, k);
      assert Component(b, k) == Component(a, k);
      forall j: nat | j < k ensures Component(c, j) == Component(b, j) {
        assert Component(b, j) == Component(a, j);
      }
      assert AgreeBelow(c, b, k);
    }
  }

  // ------------------------------------------------------------------- freshness

  datatype Freshness = Fresh | Stale | Undecidable
  datatype Refusal = StaleSequence | StaleVersion | Unprovable

  predicate SameIdentity(a: Floor.Pointer, b: Floor.Pointer) {
    && a.manifestHash == b.manifestHash && a.version == b.version
    && a.bundleId.OrNull() == b.bundleId.OrNull() && a.channel.OrNull() == b.channel.OrNull()
  }

  function SequenceFreshness(incoming: Floor.Pointer, active: Floor.Pointer): Freshness
    requires Floor.Sequenced(incoming)
  {
    if !Floor.Sequenced(active) then Undecidable
    else if incoming.sequence.v > active.sequence.v then Fresh
    else if incoming.sequence.v < active.sequence.v then Stale
    else if SameIdentity(incoming, active) then Fresh else Stale
  }

  function VersionFreshness(incoming: Floor.Pointer, active: Floor.Pointer): Freshness {
    var here, there := ParseRelease(incoming.version), ParseRelease(active.version);
    if here.None? || there.None? then Undecidable
    else
      var order := Difference(here.value, there.value, 0);
      if order < 0 then Stale
      else if order > 0 then Fresh
      else if incoming.manifestHash == active.manifestHash then Fresh else Undecidable
  }

  /** Why `incoming` may not replace `active`, or None when it provably may. */
  function DowngradeReason(incoming: Floor.Pointer, active: Floor.Pointer): Option<Refusal>
    requires Floor.Sequenced(incoming)
  {
    var sequence := SequenceFreshness(incoming, active);
    var version := VersionFreshness(incoming, active);
    if sequence.Stale? then Some(StaleSequence)
    else if version.Stale? then Some(StaleVersion)
    else if sequence.Fresh? || version.Fresh? then None
    else Some(Unprovable)
  }

  /** Both versions parse and the first is older. */
  ghost predicate VersionOlder(a: Floor.Pointer, b: Floor.Pointer) {
    && ParseRelease(a.version).Some? && ParseRelease(b.version).Some?
    && Older(ParseRelease(a.version).value, ParseRelease(b.version).value)
  }

  ghost predicate VersionNewerOrSame(a: Floor.Pointer, b: Floor.Pointer) {
    && ParseRelease(a.version).Some? && ParseRelease(b.version).Some?
    && (VersionOlder(b, a)
        || (Equal(ParseRelease(a.version).value, ParseRelease(b.version).value) && a.manifestHash == b.manifestHash))
  }

  /**
   * The gate in terms of what was signed: a pointer passes exactly when neither its counter nor its
   * version goes back, an equal counter is the same release, and one of the two comparisons is proof.
   */
  lemma PassesExactlyWhenProvablyFresh(incoming: Floor.Pointer, active: Floor.Pointer)
    requires Floor.Sequenced(incoming)
    ensures DowngradeReason(incoming, active).None? <==>
              && Floor.SequenceOf(incoming) >= Floor.SequenceOf(active)
              && (Floor.SequenceOf(incoming) == Floor.SequenceOf(active) ==> SameIdentity(incoming, active))
              && !VersionOlder(incoming, active)
              && (Floor.Sequenced(active) || VersionNewerOrSame(incoming, active))
  {
    var here, there := ParseRelease(incoming.version), ParseRelease(active.version);
    if here.Some? && there.Some? {
      DifferenceMeans(here.value, there.value, 0);
    }
  }

  // ---------------------------------------------------------------------- chains

  /** Each release passed the gate against the one before it. */
  predicate Chain(releases: seq<Floor.Pointer>) {
    forall k :: 0 < k < |releases| ==>
      Floor.Sequenced(releases[k]) && DowngradeReason(releases[k], releases[k - 1]).None?
  }

  /** Along a chain the counter never goes back, and at an equal counter it is the same release. */
  lemma {:induction false} ChainsNeverGoBackInSequence(releases: seq<Floor.Pointer>, i: nat, j: nat)
    requires Chain(releases) && i < j < |releases|
    ensures Floor.SequenceOf(releases[i]) <= Floor.SequenceOf(releases[j])
    ensures Floor.SequenceOf(releases[i]) == Floor.SequenceOf(releases[j]) ==> SameIdentity(releases[i], releases[j])
    decreases j - i
  {
    PassesExactlyWhenProvablyFresh(releases[j], releases[j - 1]);
    if i < j - 1 {
      ChainsNeverGoBackInSequence(releases, i, j - 1);
    }
  }

  /** Along a chain of comparable versions the version never goes back either. */
  lemma {:induction false} ChainsNeverGoBackInVersion(releases: seq<Floor.Pointer>, i: nat, j: nat)
    requires Chain(releases) && i < j < |releases|
    requires forall k :: i < k < j ==> ParseRelease(releases[k].version).Some?
    ensures !VersionOlder(releases[j], releases[i])
    decreases j - i
  {
    LinkDoesNotGoBack(releases, j);
    if i < j - 1 {
      ChainsNeverGoBackInVersion(releases, i, j - 1);
      VersionsCompose(releases[i], releases[j - 1], releases[j]);
    }
  }

  lemma LinkDoesNotGoBack(releases: seq<Floor.Pointer>, j: nat)
    requires Chain(releases) && 0 < j < |releases|
    ensures !VersionOlder(releases[j], releases[j - 1])
  {
    PassesExactlyWhenProvablyFresh(releases[j], releases[j - 1]);
  }

  lemma VersionsCompose(a: Floor.Pointer, b: Floor.Pointer, c: Floor.Pointer)
    requires ParseRelease(b.version).Some? && !VersionOlder(b, a) && !VersionOlder(c, b)
    ensures !VersionOlder(c, a)
  {
    if ParseRelease(a.version).Some? && ParseRelease(c.version).Some? {
      NotOlderIsTransitive(ParseRelease(a.version).value, ParseRelease(b.version).value, ParseRelease(c.version).value);
    }
  }

  /** Around a release whose version does not parse only the counters decide. */
  lemma OnlyCountersDecideAround(x: Floor.Pointer, middle: Floor.Pointer, y: Floor.Pointer)
    requires ParseRelease(middle.version).None?
    ensures Chain([x, middle, y]) <==>
              && Floor.Sequenced(x) && Floor.Sequenced(middle) && Floor.Sequenced(y)
              && x.sequence.v <= middle.sequence.v <= y.sequence.v
              && (x.sequence.v == middle.sequence.v ==> SameIdentity(middle, x))
              && (middle.sequence.v == y.sequence.v ==> SameIdentity(y, middle))
  {
    var releases := [x, middle, y];
    if Floor.Sequenced(middle) {
      PassesExactlyWhenProvablyFresh(middle, x);
    }
    if Floor.Sequenced(y) {
      PassesExactlyWhenProvablyFresh(y, middle);
    }
    if Chain(releases) {
      assert Floor.Sequenced(releases[1]) && DowngradeReason(releases[1], releases[0]).None?;
      assert Floor.Sequenced(releases[2]) && DowngradeReason(releases[2], releases[1]).None?;
    }
  }

  /**
   * Comparability matters: whatever release is older than another in version, and so is refused after
   * it, passes once any release with a version that does not parse and a counter in between was taken.
   */
  lemma AnUncomparableVersionHidesADowngrade(x: Floor.Pointer, middle: Floor.Pointer, y: Floor.Pointer)
    requires ParseRelease(middle.version).None? && VersionOlder(y, x)
    requires Floor.Sequenced(x) && Floor.Sequenced(middle) && Floor.Sequenced(y)
    requires x.sequence.v < middle.sequence.v < y.sequence.v
    ensures !Chain([x, y]) && Chain([x, middle, y])
  {
    OnlyCountersDecideAround(x, middle, y);
    PassesExactlyWhenProvablyFresh(y, x);
    assert [x, y][1] == y && [x, y][0] == x;
  }

  // ---------------------------------------------------------- reading what was written

  /** Components joined by dots. */
  function Render(components: seq<nat>): Text
    requires components != []
  {
    if |components| == 1 then Canonical.NatText(components[0])
    else Canonical.NatText(components[0]) + [DOT] + Render(components[1..])
  }

  lemma {:induction false} RenderSplits(components: seq<nat>)
    requires components != []
    ensures var parts := Split(Render(components), DOT);
            |parts| == |components| && forall k :: 0 <= k < |parts| ==> parts[k] == Canonical.NatText(components[k])
  {
    var head := Canonical.NatText(components[0]);
    if |components| == 1 {
      DigitsDoNotSplit(head, []);
      assert head + [] == head && Split([], DOT) == [[]];
    } else {
      RenderSplits(components[1..]);
      var rest := [DOT] + Render(components[1..]);
      assert rest[1..] == Render(components[1..]);
      DigitsDoNotSplit(head, rest);
      assert head + [DOT] + Render(components[1..]) == head + rest;
    }
  }

  lemma {:induction false} DigitsDoNotSplit(digits: Text, rest: Text)
    requires forall i :: 0 <= i < |digits| ==> Canonical.Digit(digits[i])
    ensures Split(digits + rest, DOT) == [digits + Split(rest, DOT)[0]] + Split(rest, DOT)[1..]
  {
    var parts := Split(rest, DOT);
    if digits == [] {
      assert digits + rest == rest && digits + parts[0] == parts[0];
      assert parts == [parts[0]] + parts[1..];
    } else {
      DigitsDoNotSplit(digits[1..], rest);
      DigitJoins(digits[0], digits[1..] + rest);
      assert digits + rest == [digits[0]] + (digits[1..] + rest);
      assert [digits[0]] + (digits[1..] + parts[0]) == digits + parts[0];
    }
  }

  /** A digit goes to the front of the first part. */
  lemma DigitJoins(c: Unit, t: Text)
    requires Canonical.Digit(c)
    ensures Split([c] + t, DOT) == [[c] + Split(t, DOT)[0]] + Split(t, DOT)[1..]
  {
    assert ([c] + t)[1..] == t;
  }

  /** A version written as dotted numbers below 2^53, with or without the `v`, reads back as them. */
  lemma WrittenVersionsReadBack(components: seq<nat>, v: bool)
    requires components != [] && forall k :: 0 <= k < |components| ==> components[k] < Zstd.TWO_53
    requires |Render(components)| < MAX_VERSION_CHARS
    ensures ParseRelease((if v then [LETTER_V] else []) + Render(components)) == Some(components)
  {
    var text := Render(components);
    RenderSplits(components);
    RenderIsDotted(components);
    RenderStarts(components);
    assert WithoutV((if v then [LETTER_V] else []) + text) == text;
    var parts := Split(text, DOT);
    forall k | 0 <= k < |parts| ensures NumberOf(parts[k]) == components[k] {
      NumbersReadBack(components[k]);
    }
    assert seq(|parts|, k requires 0 <= k < |parts| => NumberOf(parts[k])) == components;
  }

  lemma RenderStarts(components: seq<nat>)
    requires components != []
    ensures Render(components) != [] && Canonical.Digit(Render(components)[0])
  {
    var head := Canonical.NatText(components[0]);
    assert Render(components)[0] == head[0];
  }

  lemma RenderIsDotted(components: seq<nat>)
    requires components != []
    ensures Dotted(Render(components))
  {
    RenderSplits(components);
    MatchedVersionsAreNumbers(Render(components));
  }

  lemma NumbersReadBack(n: nat)
    requires n < Zstd.TWO_53
    ensures NumberOf(Canonical.NatText(n)) == n
  {
    Canonical.NatTextValue(n);
    Zstd.SmallNumbersAreExact(n, n);
  }

  /** A component of any digits is read as its own value if and only if that is a multiple of the spacing of
      doubles there. */
  lemma ComponentsReadExactly(part: Text)
    ensures NumberOf(part) == Canonical.DigitsValue(part) <==>
              Canonical.DigitsValue(part) % Zstd.Ulp(Canonical.DigitsValue(part)) == 0
  {
    Zstd.ExactlyTheMultiples(Canonical.DigitsValue(part));
  }

  /** From 2^53 on neighbours collide: these two components differ and are read as the same number. */
  lemma LargeComponentsCollide(a: Text, b: Text)
    requires Canonical.DigitsValue(a) == Zstd.TWO_53 && Canonical.DigitsValue(b) == Zstd.TWO_53 + 1
    ensures NumberOf(a) == NumberOf(b)
  {
    assert Zstd.Ulp(Zstd.TWO_53 / 2) == 2 || Zstd.Ulp(Zstd.TWO_53 / 2) == 1;
    assert Zstd.Ulp(Zstd.TWO_53) == 2 && Zstd.Ulp(Zstd.TWO_53 + 1) == 2;
  }
}
