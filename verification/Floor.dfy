/**
 * The durable release pointer and the anti-rollback floor beside it
 * (src/engine/activePointer.ts and the row functions of src/engine/sqliteStore.ts).
 */
module Floor {
  import opened Prelude

  datatype Pointer = Pointer(
    manifestHash: Text, version: Text, sequence: Field<int>, signature: Text,
    bundleId: Field<Text>, channel: Field<Text>, keyId: Field<Text>, expiresAt: Field<int>)

  // ---------------------------------------------------------------- pointers

  predicate BoundedText(s: Text, maximum: nat) {
    0 < |s| <= maximum
  }

  predicate OptionalText(f: Field<Text>, maximum: nat) {
    f.Value? ==> |f.v| <= maximum
  }

  /** What survives being written to the row and parsed back. */
  predicate Storable(p: Pointer) {
    && HexText(p.manifestHash, 64)
    && BoundedText(p.version, 200)
    && BoundedText(p.signature, 512)
    && (p.sequence.Value? ==> 0 <= p.sequence.v <= MAX_SAFE)
    && OptionalText(p.bundleId, 200)
    && OptionalText(p.channel, 200)
    && (p.keyId.Value? ==> HexText(p.keyId.v, 16))
    && (p.expiresAt.Value? ==> 0 < p.expiresAt.v <= MAX_SAFE)
  }

  predicate Same(a: Pointer, b: Pointer) {
    && a.manifestHash == b.manifestHash
    && a.version == b.version
    && a.sequence == b.sequence
    && a.signature == b.signature
    && a.bundleId.OrNull() == b.bundleId.OrNull()
    && a.channel.OrNull() == b.channel.OrNull()
    && a.keyId.OrNull() == b.keyId.OrNull()
    && a.expiresAt.OrNull() == b.expiresAt.OrNull()
  }

  /** The fields of the identity text, in its order. `Canonical.IdentityTextInjective`
      proves that the text distinguishes exactly these values. */
  datatype Identity = Identity(
    manifestHash: Text, version: Text, sequence: Option<int>, signature: Text,
    bundleId: Option<Text>, channel: Option<Text>, keyId: Option<Text>, expiresAt: Option<int>)

  function IdentityOf(p: Pointer): Identity {
    Identity(p.manifestHash, p.version, p.sequence.OrNull(), p.signature,
             p.bundleId.OrNull(), p.channel.OrNull(), p.keyId.OrNull(), p.expiresAt.OrNull())
  }

  predicate Sequenced(p: Pointer) {
    p.sequence.Value? && SafeInteger(p.sequence.v) && p.sequence.v >= 0
  }

  /** The counter, or -1 for a pointer that has none. */
  function SequenceOf(p: Pointer): int {
    if Sequenced(p) then p.sequence.v else -1
  }

  /** The operand JavaScript's `<` and `>` see: `null` is 0, `undefined` compares false. */
  function Operand(f: Field<int>): Option<int> {
    match f
    case Absent => None
    case Null => Some(0)
    case Value(n) => Some(n)
  }

  predicate CanPromote(current: Option<Pointer>, incoming: Pointer) {
    if current.None? then true
    else if !Sequenced(current.value) then true
    else
      var here := Operand(incoming.sequence);
      var there := current.value.sequence.v;
      if here.Some? && here.value > there then true
      else if here.Some? && here.value < there then false
      else Same(current.value, incoming)
  }

  // ------------------------------------------------- choosing among the slots

  /** The highest pointer so far, or the exception the loop throws. */
  datatype Selection = Highest(pointer: Option<Pointer>) | Disagree

  /** One slot folded into the running highest. */
  function Fold(sel: Selection, slot: Option<Pointer>): Selection {
    if sel.Disagree? || slot.None? then sel
    else if sel.pointer.None? then Highest(slot)
    else
      var c, h := SequenceOf(slot.value), SequenceOf(sel.pointer.value);
      if c > h then Highest(slot)
      else if c == h && !Same(slot.value, sel.pointer.value) then Disagree
      else sel
  }

  function SelectHighest(slots: seq<Option<Pointer>>): Selection {
    if slots == [] then Highest(None)
    else Fold(SelectHighest(slots[..|slots| - 1]), slots[|slots| - 1])
  }

  /** The loop as written, with its branches on whether each side has a sequence. */
  method SelectHighestPointer(slots: seq<Option<Pointer>>) returns (r: Selection)
    ensures r == SelectHighest(slots)
  {
    var highest: Option<Pointer> := None;
    for i := 0 to |slots|
      invariant SelectHighest(slots[..i]) == Highest(highest)
    {
      assert slots[..i + 1][..i] == slots[..i];
      if slots[i].None? {
        continue;
      }
      var candidate := slots[i].value;
      var candidateHas := Sequenced(candidate);
      var highestHas := highest.Some? && Sequenced(highest.value);
      if highest.None? || (candidateHas && !highestHas) {
        highest := Some(candidate);
        continue;
      }
      if !candidateHas {
        if !highestHas && !Same(candidate, highest.value) {
          SelectionSticks(slots, i + 1);
          return Disagree;
        }
        continue;
      }
      if highestHas && candidate.sequence.v == highest.value.sequence.v && !Same(candidate, highest.value) {
        SelectionSticks(slots, i + 1);
        return Disagree;
      }
      if candidate.sequence.v > highest.value.sequence.v {
        highest := Some(candidate);
      }
    }
    assert slots[..|slots|] == slots;
    return Highest(highest);
  }

  lemma {:induction false} SelectionSticks(slots: seq<Option<Pointer>>, i: nat)
    requires i <= |slots| && SelectHighest(slots[..i]).Disagree?
    ensures SelectHighest(slots).Disagree?
    decreases |slots|
  {
    if i == |slots| {
      assert slots[..i] == slots;
    } else {
      assert slots[..|slots| - 1][..i] == slots[..i];
      SelectionSticks(slots[..|slots| - 1], i);
    }
  }

  /** `k` is the first slot holding the highest sequence. */
  predicate Leads(slots: seq<Option<Pointer>>, k: nat) {
    && k < |slots| && slots[k].Some?
    && (forall j :: 0 <= j < |slots| && slots[j].Some? ==> SequenceOf(slots[j].value) <= SequenceOf(slots[k].value))
    && (forall j :: 0 <= j < k && slots[j].Some? ==> SequenceOf(slots[j].value) < SequenceOf(slots[k].value))
  }

  /** Slot `i` ties with the leader of the slots before it and is another release. */
  ghost predicate TiesWithLeader(slots: seq<Option<Pointer>>, i: nat) {
    && i < |slots| && slots[i].Some?
    && (exists k: nat ::
          && Leads(slots[..i], k)
          && SequenceOf(slots[i].value) == SequenceOf(slots[k].value)
          && !Same(slots[i].value, slots[k].value))
  }

  lemma FoldTakesTheHigher(sel: Selection, slot: Option<Pointer>)
    requires Fold(sel, slot).Highest?
    ensures sel.Highest?
    ensures Fold(sel, slot).pointer ==
              if slot.Some? && (sel.pointer.None? || SequenceOf(slot.value) > SequenceOf(sel.pointer.value))
              then slot else sel.pointer
  {
  }

  lemma LeaderStays(slots: seq<Option<Pointer>>, n: nat, k: nat)
    requires |slots| == n + 1 && Leads(slots[..n], k)
    requires slots[n].Some? ==> SequenceOf(slots[n].value) <= SequenceOf(slots[k].value)
    ensures Leads(slots, k)
  {
    forall j | 0 <= j < |slots| && slots[j].Some?
      ensures SequenceOf(slots[j].value) <= SequenceOf(slots[k].value)
    {
      if j < n { assert slots[..n][j] == slots[j]; }
    }
    forall j | 0 <= j < k && slots[j].Some?
      ensures SequenceOf(slots[j].value) < SequenceOf(slots[k].value)
    {
      assert slots[..n][j] == slots[j];
    }
  }

  lemma LastLeads(slots: seq<Option<Pointer>>, n: nat)
    requires |slots| == n + 1 && slots[n].Some?
    requires (forall j :: 0 <= j < n ==> slots[j].None?)
             || exists k: nat :: Leads(slots[..n], k) && SequenceOf(slots[n].value) > SequenceOf(slots[k].value)
    ensures Leads(slots, n)
  {
    forall j | 0 <= j < n && slots[j].Some?
      ensures SequenceOf(slots[j].value) < SequenceOf(slots[n].value)
    {
      assert slots[..n][j] == slots[j];
    }
  }

  /** Selection returns the first highest pointer, and none only when every slot is empty. */
  lemma {:induction false} SelectionIsTheLeader(slots: seq<Option<Pointer>>)
    ensures SelectHighest(slots) == Highest(None) ==> forall j :: 0 <= j < |slots| ==> slots[j].None?
    ensures SelectHighest(slots).Highest? && SelectHighest(slots).pointer.Some? ==>
              exists k: nat :: Leads(slots, k) && slots[k] == SelectHighest(slots).pointer
  {
    if slots != [] && SelectHighest(slots).Highest? {
      var n := |slots| - 1;
      var sel := SelectHighest(slots[..n]);
      FoldTakesTheHigher(sel, slots[n]);
      SelectionIsTheLeader(slots[..n]);
      if sel.pointer.Some? {
        var k: nat :| Leads(slots[..n], k) && slots[k] == sel.pointer;
        if slots[n].Some? && SequenceOf(slots[n].value) > SequenceOf(slots[k].value) {
          LastLeads(slots, n);
        } else {
          LeaderStays(slots, n, k);
        }
      } else if slots[n].Some? {
        LastLeads(slots, n);
      }
    }
  }

  /** It throws exactly when some slot ties with the leader of the slots before it without being
      the same release. */
  lemma {:induction false} ThrowsExactlyOnATie(slots: seq<Option<Pointer>>)
    ensures SelectHighest(slots).Disagree? <==> exists i: nat :: TiesWithLeader(slots, i)
  {
    if slots == [] {
    } else {
      var n := |slots| - 1;
      var front := slots[..n];
      ThrowsExactlyOnATie(front);
      forall i: nat | i < n
        ensures TiesWithLeader(front, i) <==> TiesWithLeader(slots, i)
      {
        assert front[..i] == slots[..i];
      }
      if !SelectHighest(front).Disagree? {
        LastSlotTies(slots);
        assert SelectHighest(slots).Disagree? <==> TiesWithLeader(slots, n);
      } else {
        var i: nat :| TiesWithLeader(front, i);
        assert TiesWithLeader(slots, i);
      }
    }
  }

  lemma LastSlotTies(slots: seq<Option<Pointer>>)
    requires slots != [] && SelectHighest(slots[..|slots| - 1]).Highest?
    ensures SelectHighest(slots).Disagree? <==> TiesWithLeader(slots, |slots| - 1)
  {
    var front := slots[..|slots| - 1];
    SelectionIsTheLeader(front);
    var sel := SelectHighest(front);
    if sel.pointer.Some? {
      var k: nat :| Leads(front, k) && front[k] == sel.pointer;
      assert forall k': nat :: Leads(front, k') ==> k' == k;
      assert slots[k] == sel.pointer;
    }
  }

  lemma SelectThree(x: Option<Pointer>, y: Option<Pointer>, z: Option<Pointer>)
    ensures SelectHighest([x, y, z]) == Fold(Fold(Fold(Highest(None), x), y), z)
  {
    assert [x, y, z][..2] == [x, y] && [x, y][..1] == [x] && [x][..0] == [];
    assert SelectHighest([x]) == Fold(Highest(None), x);
    assert SelectHighest([x, y]) == Fold(SelectHighest([x]), y);
  }

  // ------------------------------------------------------------- the floor row

  datatype Row = Row(pointer: Option<Pointer>, floor: int, identity: Option<Identity>)

  /** What a missing row reads as. */
  const EMPTY_ROW := Row(None, -1, None)

  /** THE gate every write and every read of the active pointer goes through. */
  predicate Admits(row: Row, incoming: Pointer) {
    if row.floor < 0 then CanPromote(row.pointer, incoming)
    else if SequenceOf(incoming) != row.floor then SequenceOf(incoming) > row.floor
    else row.identity == Some(IdentityOf(incoming))
  }

  function Install(row: Row, p: Pointer): Row {
    Row(Some(p), Max(row.floor, SequenceOf(p)), Some(IdentityOf(p)))
  }

  /** The highest sequence in any slot, -1 when there is none. */
  function MaxSequence(slots: seq<Option<Pointer>>): int {
    if slots == [] then -1
    else
      var rest := MaxSequence(slots[..|slots| - 1]);
      var last := slots[|slots| - 1];
      if last.None? then rest else Max(rest, SequenceOf(last.value))
  }

  function ConflictingFloor(row: Row, slots: seq<Option<Pointer>>): Row {
    var sequence := MaxSequence(slots);
    if sequence > row.floor then Row(None, sequence, None)
    else if sequence == row.floor then row.(identity := None)
    else row
  }

  function MergeLegacy(row: Row, slots: seq<Option<Pointer>>): Row {
    match SelectHighest(slots)
    case Disagree => ConflictingFloor(row, slots)
    case Highest(None) => row
    case Highest(Some(legacy)) =>
      if Admits(row, legacy) then
        if SequenceOf(legacy) < 0 && row.pointer.Some? then row else Install(row, legacy)
      else if SequenceOf(legacy) == row.floor then row.(identity := None)
      else row
  }

  /** A row as the next read parses it: a pointer that does not parse reads as none. */
  function ReadBack(row: Row): Row {
    if row.pointer.Some? && !Storable(row.pointer.value) then row.(pointer := None) else row
  }

  /** The update, or None when the monotonic trigger aborts the transaction. */
  function WriteRow(current: Row, target: Row): Option<Row> {
    if target.floor < current.floor then None else Some(ReadBack(target))
  }

  /** The pointer that may be served. */
  function Served(row: Row): Option<Pointer> {
    if row.pointer.Some? && Admits(row, row.pointer.value) then row.pointer else None
  }

  // ---------------------------------------------------------------- operations

  datatype Op =
    | Promote(p: Pointer, chunksPresent: bool)
    | ClearActiveIf(p: Pointer)
    | MergeSlots(slots: seq<Option<Pointer>>)  // importLegacy and raiseLegacyFloor
    | Untouched                                // reads, puts, flushes and prunes

  /** One transaction: `committed` is false when anything in it threw. */
  datatype Step = Step(op: Op, committed: bool)

  function Target(row: Row, op: Op): Row {
    match op
    case Promote(p, present) => if present && Admits(row, p) then Install(row, p) else row
    case ClearActiveIf(p) => if row.pointer.Some? && Same(row.pointer.value, p) then row.(pointer := None) else row
    case MergeSlots(slots) => MergeLegacy(row, slots)
    case Untouched => row
  }

  function Next(row: Row, s: Step): Row {
    if !s.committed || s.op.Untouched? then row
    else
      match WriteRow(row, Target(row, s.op))
      case Some(r) => r
      case None => row
  }

  function After(row: Row, steps: seq<Step>): Row {
    if steps == [] then row else Next(After(row, steps[..|steps| - 1]), steps[|steps| - 1])
  }

  /** What every reachable row satisfies. */
  predicate Sound(row: Row) {
    && -1 <= row.floor <= MAX_SAFE
    && (row.pointer.Some? ==>
          && Storable(row.pointer.value)
          && SequenceOf(row.pointer.value) == row.floor
          && (row.identity.Some? ==> row.identity == Some(IdentityOf(row.pointer.value))))
    && (row.floor >= 0 && row.identity.Some? ==> row.identity.value.sequence == Some(row.floor))
  }

  lemma {:induction false} MaxSequenceBounds(slots: seq<Option<Pointer>>)
    ensures -1 <= MaxSequence(slots) <= MAX_SAFE
    ensures forall j :: 0 <= j < |slots| && slots[j].Some? ==> SequenceOf(slots[j].value) <= MaxSequence(slots)
    ensures MaxSequence(slots) >= 0 ==>
              exists j :: 0 <= j < |slots| && slots[j].Some? && SequenceOf(slots[j].value) == MaxSequence(slots)
  {
    if slots == [] {
    } else {
      var n := |slots| - 1;
      var front := slots[..n];
      MaxSequenceBounds(front);
      if MaxSequence(slots) >= 0 && MaxSequence(slots) == MaxSequence(front) {
        var j :| 0 <= j < n && front[j].Some? && SequenceOf(front[j].value) == MaxSequence(front);
        assert slots[j] == front[j];
      } else if slots[n].Some? {
        assert SequenceOf(slots[n].value) <= MaxSequence(slots);
      }
    }
  }

  lemma MaxOfThree(x: Option<Pointer>, y: Option<Pointer>, z: Option<Pointer>)
    requires x.Some? && y.Some? && z.Some?
    ensures MaxSequence([x, y, z]) == Max(SequenceOf(x.value), Max(SequenceOf(y.value), SequenceOf(z.value)))
  {
    assert [x, y, z][..2] == [x, y] && [x, y][..1] == [x] && [x][..0] == [];
    assert MaxSequence([x]) == SequenceOf(x.value);
    assert MaxSequence([x, y]) == Max(MaxSequence([x]), SequenceOf(y.value));
  }

  /** A merge raises the floor to the highest slot or leaves it, whatever the order of the slots. */
  lemma MergeRaisesToMaximum(row: Row, slots: seq<Option<Pointer>>)
    requires Sound(row)
    ensures MergeLegacy(row, slots).floor == Max(row.floor, MaxSequence(slots))
  {
    SelectionIsTheLeader(slots);
    MaxSequenceBounds(slots);
    var sel := SelectHighest(slots);
    if sel.Highest? && sel.pointer.Some? {
      var k: nat :| Leads(slots, k) && slots[k] == sel.pointer;
      assert SequenceOf(sel.pointer.value) == MaxSequence(slots);
    }
  }

  /** Reordering the slots never changes the floor a merge leaves. */
  lemma MergeFloorIgnoresOrder(row: Row, slots: seq<Option<Pointer>>, other: seq<Option<Pointer>>)
    requires Sound(row) && Reordered(slots, other)
    ensures MergeLegacy(row, slots).floor == MergeLegacy(row, other).floor
  {
    MergeRaisesToMaximum(row, slots);
    MergeRaisesToMaximum(row, other);
    MaxIgnoresOrder(slots, other);
  }

  /** Whether the selection throws does depend on the order, and with it whether the highest slot
      may be served: the floor is 'top' either way. */
  lemma ServingAfterMergeDependsOnOrder(a: Pointer, b: Pointer, top: Pointer)
    requires Sequenced(a) && Sequenced(b) && Sequenced(top)
    requires a.sequence == b.sequence && !Same(a, b) && top.sequence.v > a.sequence.v
    ensures var conflict := MergeLegacy(EMPTY_ROW, [Some(a), Some(b), Some(top)]);
            conflict.floor == top.sequence.v && Served(conflict) == None && !Admits(conflict, top)
    ensures var clean := MergeLegacy(EMPTY_ROW, [Some(top), Some(a), Some(b)]);
            clean.floor == top.sequence.v && Served(clean) == Some(top) && Admits(clean, top)
  {
    SelectThree(Some(a), Some(b), Some(top));
    SelectThree(Some(top), Some(a), Some(b));
    MergeRaisesToMaximum(EMPTY_ROW, [Some(a), Some(b), Some(top)]);
    MergeRaisesToMaximum(EMPTY_ROW, [Some(top), Some(a), Some(b)]);
    MaxOfThree(Some(a), Some(b), Some(top));
    MaxOfThree(Some(top), Some(a), Some(b));
  }

  // --------------------------------------------------- when the order does not matter

  /** Slots at one sequence are one release. */
  predicate Agree(slots: seq<Option<Pointer>>) {
    forall i, j :: 0 <= i < |slots| && 0 <= j < |slots| && slots[i].Some? && slots[j].Some?
                   && SequenceOf(slots[i].value) == SequenceOf(slots[j].value)
                   ==> Same(slots[i].value, slots[j].value)
  }

  /** The slots at the highest sequence are one release. */
  predicate TopAgrees(slots: seq<Option<Pointer>>) {
    forall i, j :: 0 <= i < |slots| && 0 <= j < |slots| && slots[i].Some? && slots[j].Some?
                   && SequenceOf(slots[i].value) == SequenceOf(slots[j].value) == MaxSequence(slots)
                   ==> Same(slots[i].value, slots[j].value)
  }

  ghost predicate Reordered(slots: seq<Option<Pointer>>, other: seq<Option<Pointer>>) {
    multiset(other) == multiset(slots)
  }

  lemma ReorderedSlots(slots: seq<Option<Pointer>>, other: seq<Option<Pointer>>, j: nat)
    requires Reordered(slots, other) && j < |other|
    ensures exists i :: 0 <= i < |slots| && slots[i] == other[j]
  {
    assert other[j] in multiset(other);
    assert other[j] in multiset(slots);
  }

  lemma ReorderedAgree(slots: seq<Option<Pointer>>, other: seq<Option<Pointer>>)
    requires Reordered(slots, other) && Agree(slots)
    ensures Agree(other)
  {
    forall i, j | 0 <= i < |other| && 0 <= j < |other| && other[i].Some? && other[j].Some?
                  && SequenceOf(other[i].value) == SequenceOf(other[j].value)
      ensures Same(other[i].value, other[j].value)
    {
      ReorderedSlots(slots, other, i);
      ReorderedSlots(slots, other, j);
    }
  }

  lemma AgreeNeverThrows(slots: seq<Option<Pointer>>)
    requires Agree(slots)
    ensures SelectHighest(slots).Highest?
  {
    ThrowsExactlyOnATie(slots);
    forall i: nat, k: nat | i < |slots| && slots[i].Some? && Leads(slots[..i], k)
                            && SequenceOf(slots[i].value) == SequenceOf(slots[k].value)
      ensures Same(slots[i].value, slots[k].value)
    {
      assert slots[..i][k] == slots[k];
    }
  }

  /** Two slots taken out of their places and put first. */
  function InFront(slots: seq<Option<Pointer>>, i: nat, j: nat): seq<Option<Pointer>>
    requires i < j < |slots|
  {
    [slots[i], slots[j]] + (slots[..i] + slots[i + 1..j] + slots[j + 1..])
  }

  lemma InFrontReorders(slots: seq<Option<Pointer>>, i: nat, j: nat)
    requires i < j < |slots|
    ensures Reordered(slots, InFront(slots, i, j))
  {
    assert slots == slots[..i] + [slots[i]] + slots[i + 1..j] + [slots[j]] + slots[j + 1..];
  }

  /** Two unlike slots at one sequence, seen first, make the selection throw. */
  lemma UnlikePairThrows(slots: seq<Option<Pointer>>, i: nat, j: nat)
    requires i < j < |slots| && slots[i].Some? && slots[j].Some?
    requires SequenceOf(slots[i].value) == SequenceOf(slots[j].value) && !Same(slots[i].value, slots[j].value)
    ensures SelectHighest(InFront(slots, i, j)).Disagree?
  {
    var other := InFront(slots, i, j);
    assert other[..2] == [slots[i], slots[j]] && other[..2][..1] == [slots[i]] && other[..2][..1][..0] == [];
    assert SelectHighest(other[..2][..1]) == Highest(slots[i]);
    assert SelectHighest(other[..2]) == Fold(Highest(slots[i]), slots[j]);
    SelectionSticks(other, 2);
  }

  /** No order of the slots makes the selection throw if and only if slots at one sequence are one release. */
  lemma NoOrderThrowsExactly(slots: seq<Option<Pointer>>)
    ensures Agree(slots) <==> forall other :: Reordered(slots, other) ==> SelectHighest(other).Highest?
  {
    if Agree(slots) {
      forall other | Reordered(slots, other) ensures SelectHighest(other).Highest? {
        ReorderedAgree(slots, other);
        AgreeNeverThrows(other);
      }
    } else {
      var i, j :| 0 <= i < |slots| && 0 <= j < |slots| && slots[i].Some? && slots[j].Some?
                  && SequenceOf(slots[i].value) == SequenceOf(slots[j].value)
                  && !Same(slots[i].value, slots[j].value);
      var a, b := if i < j then i else j, if i < j then j else i;
      InFrontReorders(slots, a, b);
      UnlikePairThrows(slots, a, b);
    }
  }

  /** Whoever is selected stands for every slot at its sequence. */
  lemma {:induction false} SelectedStandsForItsSequence(slots: seq<Option<Pointer>>, j: nat)
    requires SelectHighest(slots).Highest? && j < |slots| && slots[j].Some?
    ensures SelectHighest(slots).pointer.Some?
    ensures SequenceOf(slots[j].value) <= SequenceOf(SelectHighest(slots).pointer.value)
    ensures SequenceOf(slots[j].value) == SequenceOf(SelectHighest(slots).pointer.value) ==>
              Same(slots[j].value, SelectHighest(slots).pointer.value)
  {
    var n := |slots| - 1;
    FoldTakesTheHigher(SelectHighest(slots[..n]), slots[n]);
    if j < n {
      SelectedStandsForItsSequence(slots[..n], j);
    }
  }

  lemma SelectedIsTop(slots: seq<Option<Pointer>>)
    requires SelectHighest(slots).Highest? && SelectHighest(slots).pointer.Some?
    ensures SequenceOf(SelectHighest(slots).pointer.value) == MaxSequence(slots)
    ensures exists k :: 0 <= k < |slots| && slots[k] == SelectHighest(slots).pointer
    ensures TopAgrees(slots)
  {
    SelectionIsTheLeader(slots);
    MaxSequenceBounds(slots);
    forall i | 0 <= i < |slots| && slots[i].Some? && SequenceOf(slots[i].value) == MaxSequence(slots)
      ensures Same(slots[i].value, SelectHighest(slots).pointer.value)
    {
      SelectedStandsForItsSequence(slots, i);
    }
  }

  /** Rows no reader can tell apart: floor, identity, and what is served. */
  predicate SameOutcome(a: Row, b: Row) {
    && a.floor == b.floor && a.identity == b.identity
    && (Served(a).Some? <==> Served(b).Some?)
    && (Served(a).Some? && Served(b).Some? ==> IdentityOf(Served(a).value) == IdentityOf(Served(b).value))
  }

  /** What makes the order immaterial: no disagreement, one at the top already, nothing to merge, or a
      highest release that is refused anyway. */
  predicate OrderFree(row: Row, slots: seq<Option<Pointer>>) {
    || Agree(slots)
    || !TopAgrees(slots)
    || MaxSequence(slots) < row.floor
    || (MaxSequence(slots) == row.floor && exists k :: 0 <= k < |slots| && RefusedTop(row, slots, k))
  }

  predicate RefusedTop(row: Row, slots: seq<Option<Pointer>>, k: nat)
    requires k < |slots|
  {
    slots[k].Some? && SequenceOf(slots[k].value) == MaxSequence(slots) && !Admits(row, slots[k].value)
  }

  lemma MaxIgnoresOrder(slots: seq<Option<Pointer>>, other: seq<Option<Pointer>>)
    requires Reordered(slots, other)
    ensures MaxSequence(slots) == MaxSequence(other)
  {
    MaxSequenceBounds(slots);
    MaxSequenceBounds(other);
    if MaxSequence(slots) >= 0 {
      var j :| 0 <= j < |slots| && slots[j].Some? && SequenceOf(slots[j].value) == MaxSequence(slots);
      ReorderedSlots(other, slots, j);
    }
    if MaxSequence(other) >= 0 {
      var j :| 0 <= j < |other| && other[j].Some? && SequenceOf(other[j].value) == MaxSequence(other);
      ReorderedSlots(slots, other, j);
    }
  }

  lemma ReorderedTops(slots: seq<Option<Pointer>>, other: seq<Option<Pointer>>)
    requires Reordered(slots, other) && TopAgrees(slots)
    ensures TopAgrees(other)
  {
    MaxIgnoresOrder(slots, other);
    forall i, j | 0 <= i < |other| && 0 <= j < |other| && other[i].Some? && other[j].Some?
                  && SequenceOf(other[i].value) == SequenceOf(other[j].value) == MaxSequence(other)
      ensures Same(other[i].value, other[j].value)
    {
      ReorderedSlots(slots, other, i);
      ReorderedSlots(slots, other, j);
    }
  }

  /** Installing either of two pointers that are the same release comes to the same. */
  lemma SamePointersInstallAlike(row: Row, p: Pointer, q: Pointer)
    requires Sound(row) && Same(p, q)
    ensures Admits(row, p) <==> Admits(row, q)
    ensures SameOutcome(Install(row, p), Install(row, q))
  {
  }

  lemma LikeSelectionsMergeAlike(row: Row, slots: seq<Option<Pointer>>, other: seq<Option<Pointer>>)
    requires Sound(row) && SelectHighest(slots).Highest? && SelectHighest(other).Highest?
    requires SelectHighest(slots).pointer.Some? <==> SelectHighest(other).pointer.Some?
    requires SelectHighest(slots).pointer.Some? && SelectHighest(other).pointer.Some? ==>
               Same(SelectHighest(slots).pointer.value, SelectHighest(other).pointer.value)
    ensures SameOutcome(MergeLegacy(row, slots), MergeLegacy(row, other))
  {
    if SelectHighest(slots).pointer.Some? {
      SamePointersInstallAlike(row, SelectHighest(slots).pointer.value, SelectHighest(other).pointer.value);
    }
  }

  /** Selections of two orders that do not throw are one release. */
  lemma SelectionsAreLike(slots: seq<Option<Pointer>>, other: seq<Option<Pointer>>)
    requires Reordered(slots, other) && SelectHighest(slots).Highest? && SelectHighest(other).Highest?
    ensures SelectHighest(slots).pointer.Some? <==> SelectHighest(other).pointer.Some?
    ensures SelectHighest(slots).pointer.Some? && SelectHighest(other).pointer.Some? ==>
              Same(SelectHighest(slots).pointer.value, SelectHighest(other).pointer.value)
  {
    if SelectHighest(slots).pointer.Some? {
      SelectedIsTop(slots);
      var k :| 0 <= k < |slots| && slots[k] == SelectHighest(slots).pointer;
      ReorderedSlots(other, slots, k);
      var i :| 0 <= i < |other| && other[i] == slots[k];
      SelectedStandsForItsSequence(other, i);
      SelectedIsTop(other);
      MaxIgnoresOrder(slots, other);
    } else if SelectHighest(other).pointer.Some? {
      SelectedIsTop(other);
      var k :| 0 <= k < |other| && other[k] == SelectHighest(other).pointer;
      ReorderedSlots(slots, other, k);
      var i :| 0 <= i < |slots| && slots[i] == other[k];
      SelectedStandsForItsSequence(slots, i);
    }
  }

  lemma AgreeMergesAlike(row: Row, slots: seq<Option<Pointer>>, other: seq<Option<Pointer>>)
    requires Sound(row) && Reordered(slots, other) && Agree(slots)
    ensures SameOutcome(MergeLegacy(row, slots), MergeLegacy(row, other))
  {
    ReorderedAgree(slots, other);
    AgreeNeverThrows(slots);
    AgreeNeverThrows(other);
    SelectionsAreLike(slots, other);
    LikeSelectionsMergeAlike(row, slots, other);
  }

  lemma UnlikeTopsAlwaysThrow(slots: seq<Option<Pointer>>)
    requires !TopAgrees(slots)
    ensures SelectHighest(slots).Disagree?
  {
    if SelectHighest(slots).Highest? {
      var i :| 0 <= i < |slots| && slots[i].Some?;
      SelectedStandsForItsSequence(slots, i);
      SelectedIsTop(slots);
    }
  }

  lemma LowSlotsChangeNothing(row: Row, slots: seq<Option<Pointer>>)
    requires Sound(row) && MaxSequence(slots) < row.floor
    ensures MergeLegacy(row, slots) == row
  {
    MaxSequenceBounds(slots);
    if SelectHighest(slots).Highest? && SelectHighest(slots).pointer.Some? {
      SelectedIsTop(slots);
    }
  }

  lemma RefusedTopMergesAlike(row: Row, slots: seq<Option<Pointer>>, other: seq<Option<Pointer>>, k: nat)
    requires Sound(row) && Reordered(slots, other) && TopAgrees(slots)
    requires MaxSequence(slots) == row.floor >= 0 && k < |slots| && RefusedTop(row, slots, k)
    ensures MergeLegacy(row, other) == row.(identity := None)
  {
    MaxIgnoresOrder(slots, other);
    if SelectHighest(other).Highest? {
      ReorderedSlots(other, slots, k);
      var i :| 0 <= i < |other| && other[i] == slots[k];
      SelectedStandsForItsSequence(other, i);
      SelectedIsTop(other);
    }
  }

  /** An order-free merge is the same in every order. */
  lemma OrderFreeMergesAlike(row: Row, slots: seq<Option<Pointer>>, other: seq<Option<Pointer>>)
    requires Sound(row) && Reordered(slots, other) && OrderFree(row, slots)
    ensures SameOutcome(MergeLegacy(row, slots), MergeLegacy(row, other))
  {
    MaxIgnoresOrder(slots, other);
    MaxSequenceBounds(slots);
    if Agree(slots) {
      AgreeMergesAlike(row, slots, other);
    } else if !TopAgrees(slots) {
      if TopAgrees(other) { ReorderedTops(other, slots); }
      UnlikeTopsAlwaysThrow(slots);
      UnlikeTopsAlwaysThrow(other);
    } else if MaxSequence(slots) < row.floor {
      LowSlotsChangeNothing(row, slots);
      LowSlotsChangeNothing(row, other);
    } else {
      DisagreementIsSequenced(slots);
      var k :| 0 <= k < |slots| && RefusedTop(row, slots, k);
      RefusedTopMergesAlike(row, slots, slots, k);
      RefusedTopMergesAlike(row, slots, other, k);
    }
  }

  /** Slots that disagree below an agreed top have a sequenced top. */
  lemma DisagreementIsSequenced(slots: seq<Option<Pointer>>)
    requires !Agree(slots) && TopAgrees(slots)
    ensures MaxSequence(slots) >= 0
  {
    MaxSequenceBounds(slots);
  }

  function TopFirst(slots: seq<Option<Pointer>>, k: nat): seq<Option<Pointer>>
    requires k < |slots|
  {
    [slots[k]] + (slots[..k] + slots[k + 1..])
  }

  /** A top slot seen first is selected, whatever the lower ones are. */
  lemma {:induction false} FirstTopIsSelected(slots: seq<Option<Pointer>>, n: nat)
    requires 0 < n <= |slots| && slots[0].Some?
    requires forall j :: 0 <= j < |slots| && slots[j].Some? ==>
               SequenceOf(slots[j].value) <= SequenceOf(slots[0].value)
               && (SequenceOf(slots[j].value) == SequenceOf(slots[0].value) ==> Same(slots[j].value, slots[0].value))
    ensures SelectHighest(slots[..n]) == Highest(slots[0])
  {
    if n == 1 {
      assert slots[..1][..0] == [];
    } else {
      FirstTopIsSelected(slots, n - 1);
      assert slots[..n][..n - 1] == slots[..n - 1];
    }
  }

  lemma TopFirstIsSelected(slots: seq<Option<Pointer>>, k: nat)
    requires k < |slots| && slots[k].Some? && SequenceOf(slots[k].value) == MaxSequence(slots) && TopAgrees(slots)
    ensures Reordered(slots, TopFirst(slots, k)) && SelectHighest(TopFirst(slots, k)) == Highest(slots[k])
  {
    var other := TopFirst(slots, k);
    assert slots == slots[..k] + [slots[k]] + slots[k + 1..];
    ReorderedTops(slots, other);
    MaxIgnoresOrder(slots, other);
    MaxSequenceBounds(other);
    assert other[0] == slots[k];
    FirstTopIsSelected(other, |other|);
    assert other[..|other|] == other;
  }

  lemma CleanOrder(row: Row, slots: seq<Option<Pointer>>) returns (clean: seq<Option<Pointer>>)
    requires Sound(row) && !OrderFree(row, slots)
    ensures Reordered(slots, clean) && MergeLegacy(row, clean).identity.Some?
  {
    DisagreementIsSequenced(slots);
    MaxSequenceBounds(slots);
    var k :| 0 <= k < |slots| && slots[k].Some? && SequenceOf(slots[k].value) == MaxSequence(slots);
    clean := TopFirst(slots, k);
    TopFirstIsSelected(slots, k);
    assert !RefusedTop(row, slots, k) || MaxSequence(slots) != row.floor;
  }

  lemma TornOrder(row: Row, slots: seq<Option<Pointer>>) returns (torn: seq<Option<Pointer>>)
    requires !Agree(slots) && MaxSequence(slots) >= row.floor
    ensures Reordered(slots, torn) && MergeLegacy(row, torn).identity.None?
  {
    var i, j :| 0 <= i < |slots| && 0 <= j < |slots| && slots[i].Some? && slots[j].Some?
                && SequenceOf(slots[i].value) == SequenceOf(slots[j].value) && !Same(slots[i].value, slots[j].value);
    var a, b := if i < j then i else j, if i < j then j else i;
    torn := InFront(slots, a, b);
    InFrontReorders(slots, a, b);
    UnlikePairThrows(slots, a, b);
    MaxIgnoresOrder(slots, torn);
  }

  /** Every order of the slots leaves the same floor, identity and served release if and only if the merge is
      order-free. */
  lemma OrderMattersExactly(row: Row, slots: seq<Option<Pointer>>)
    requires Sound(row)
    ensures OrderFree(row, slots) <==>
              forall other :: Reordered(slots, other) ==> SameOutcome(MergeLegacy(row, slots), MergeLegacy(row, other))
  {
    if OrderFree(row, slots) {
      forall other | Reordered(slots, other) ensures SameOutcome(MergeLegacy(row, slots), MergeLegacy(row, other)) {
        OrderFreeMergesAlike(row, slots, other);
      }
    } else {
      var clean := CleanOrder(row, slots);
      var torn := TornOrder(row, slots);
    }
  }

  /** The monotonic trigger is never what stops one of the store's own writes. */
  lemma TriggerNeverFires(row: Row, op: Op)
    requires Sound(row)
    ensures WriteRow(row, Target(row, op)).Some?
  {
    if op.MergeSlots? {
      MergeRaisesToMaximum(row, op.slots);
    }
  }

  /** The gate, whatever the row of a run is: without a floor it admits anything, for the row's own pointer then
      has no counter to compare with; with one, exactly what is above it, or level and of its identity. */
  lemma AdmitsExactly(row: Row, p: Pointer)
    requires Sound(row)
    ensures Admits(row, p) <==>
              || row.floor < 0
              || SequenceOf(p) > row.floor
              || (SequenceOf(p) == row.floor && row.identity == Some(IdentityOf(p)))
  {
  }

  /** Clearing takes away exactly the pointer that is expected, and never the floor or its identity. */
  lemma ClearsExactly(row: Row, p: Pointer)
    requires Sound(row)
    ensures var after := Next(row, Step(ClearActiveIf(p), true));
            && after.pointer == (if row.pointer.Some? && Same(row.pointer.value, p) then None else row.pointer)
            && after.floor == row.floor && after.identity == row.identity
  {
    TriggerNeverFires(row, ClearActiveIf(p));
  }

  lemma InstallIsSound(row: Row, p: Pointer)
    requires Sound(row) && Admits(row, p)
    ensures Sound(ReadBack(Install(row, p))) && Install(row, p).floor >= row.floor
  {
  }

  lemma MergeIsSound(row: Row, slots: seq<Option<Pointer>>)
    requires Sound(row)
    ensures Sound(ReadBack(MergeLegacy(row, slots)))
  {
    MaxSequenceBounds(slots);
    var sel := SelectHighest(slots);
    if sel.Highest? && sel.pointer.Some? && Admits(row, sel.pointer.value) {
      InstallIsSound(row, sel.pointer.value);
    }
  }

  /** Every transaction, committed or aborted, keeps a row sound. */
  lemma NextIsSound(row: Row, s: Step)
    requires Sound(row)
    ensures Sound(Next(row, s))
    ensures Next(row, s).floor >= row.floor
  {
    TriggerNeverFires(row, s.op);
    match s.op
    case Promote(p, present) =>
      if Admits(row, p) { InstallIsSound(row, p); }
    case MergeSlots(slots) =>
      MergeIsSound(row, slots);
    case _ =>
  }

  /** While the floor stays where it is, its identity can only be given up. */
  lemma IdentityIsKeptOrDropped(row: Row, s: Step)
    requires Sound(row) && row.floor >= 0 && Next(row, s).floor == row.floor
    ensures Next(row, s).identity == row.identity || Next(row, s).identity == None
  {
    TriggerNeverFires(row, s.op);
  }

  lemma {:induction false} RunFacts(row: Row, steps: seq<Step>, i: nat, j: nat)
    requires Sound(row) && i <= j <= |steps|
    ensures Sound(After(row, steps[..i])) && Sound(After(row, steps[..j]))
    ensures After(row, steps[..i]).floor <= After(row, steps[..j]).floor
    ensures After(row, steps[..i]).floor == After(row, steps[..j]).floor >= 0 ==>
              var a, b := After(row, steps[..i]).identity, After(row, steps[..j]).identity; b == a || b == None
    decreases j
  {
    if j == 0 {
    } else if i == j {
      RunFacts(row, steps, i - 1, j - 1);
      assert steps[..j][..j - 1] == steps[..j - 1];
      NextIsSound(After(row, steps[..j - 1]), steps[j - 1]);
    } else {
      RunFacts(row, steps, i, j - 1);
      assert steps[..j][..j - 1] == steps[..j - 1];
      var before := After(row, steps[..j - 1]);
      NextIsSound(before, steps[j - 1]);
      if before.floor == After(row, steps[..j]).floor >= 0 {
        IdentityIsKeptOrDropped(before, steps[j - 1]);
      }
    }
  }

  // ------------------------------------------------------------- over whole runs

  /** The floor never goes down, whatever commits or aborts. */
  lemma FloorNeverDecreases(row: Row, steps: seq<Step>, i: nat, j: nat)
    requires Sound(row) && i <= j <= |steps|
    ensures After(row, steps[..i]).floor <= After(row, steps[..j]).floor
  {
    RunFacts(row, steps, i, j);
  }

  /** Whatever is served is exactly at the floor, at every point of every run. */
  lemma ServedSitsAtTheFloor(row: Row, steps: seq<Step>, i: nat)
    requires Sound(row) && i <= |steps|
    ensures var r := After(row, steps[..i]);
            Served(r).Some? ==> Storable(Served(r).value) && SequenceOf(Served(r).value) == r.floor
  {
    RunFacts(row, steps, i, i);
  }

  /** Two pointers ever served at one sequence are the same release. */
  lemma NoForkIsEverServed(row: Row, steps: seq<Step>, i: nat, j: nat)
    requires Sound(row) && i <= j <= |steps|
    requires Served(After(row, steps[..i])).Some? && Served(After(row, steps[..j])).Some?
    ensures var p, q := Served(After(row, steps[..i])).value, Served(After(row, steps[..j])).value;
            && SequenceOf(p) <= SequenceOf(q)
            && (SequenceOf(p) == SequenceOf(q) >= 0 ==> IdentityOf(p) == IdentityOf(q))
  {
    RunFacts(row, steps, i, j);
  }

  /** Once slots were merged, no release below any of them is ever served or promoted, and a
      release level with one of them only if it is the identity recorded for the floor. */
  lemma LegacyFloorIsEnforced(row: Row, steps: seq<Step>, i: nat, j: nat, k: nat, p: Pointer)
    requires Sound(row) && i < j <= |steps|
    requires steps[i].committed && steps[i].op.MergeSlots?
    requires k < |steps[i].op.slots| && steps[i].op.slots[k].Some?
    requires Admits(After(row, steps[..j]), p)
    ensures SequenceOf(p) >= SequenceOf(steps[i].op.slots[k].value)
    ensures SequenceOf(p) == SequenceOf(steps[i].op.slots[k].value) >= 0 ==>
              After(row, steps[..j]).identity == Some(IdentityOf(p))
  {
    var before := After(row, steps[..i]);
    RunFacts(row, steps, i, i);
    RunFacts(row, steps, i + 1, j);
    assert steps[..i + 1][..i] == steps[..i];
    MergeRaisesToMaximum(before, steps[i].op.slots);
    MaxSequenceBounds(steps[i].op.slots);
    TriggerNeverFires(before, steps[i].op);
  }

  /** A promotion that committed is what the floor then records, for good. */
  lemma PromotionRaisesTheFloor(row: Row, steps: seq<Step>, i: nat, j: nat)
    requires Sound(row) && i < j <= |steps|
    requires steps[i].committed && steps[i].op.Promote? && steps[i].op.chunksPresent
    requires Admits(After(row, steps[..i]), steps[i].op.p)
    ensures After(row, steps[..j]).floor >= SequenceOf(steps[i].op.p)
    ensures j == i + 1 ==>
              && After(row, steps[..j]).identity == Some(IdentityOf(steps[i].op.p))
              && Served(After(row, steps[..j])) == if Storable(steps[i].op.p) then Some(steps[i].op.p) else None
  {
    RunFacts(row, steps, i, i);
    RunFacts(row, steps, i + 1, j);
    assert steps[..i + 1][..i] == steps[..i];
  }
}
