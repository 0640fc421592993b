/**
 * `verifyReassembly` as it runs (src/engine/sync.ts): one bounded map over each file's chunks, all maps
 * asking one shared reader, which reads one store. A call of a map asks for a chunk and settles as the
 * read it was given does; calls, reads and answers of all files come in any order.
 */
module Reassembly {
  import opened Prelude
  import BoundedMap
  import ChunkReader
  import opened ChunkStore
  import Manifest
  import SyncIndex
  import opened Transfer

  type Asked = map<(nat, nat), nat>

  /** The reader over the store, a map for each file, and which read each call was given. */
  datatype Verifying = Verifying(reading: Reading, maps: seq<BoundedMap.State>, asked: Asked)

  datatype Event =
    | Take(f: nat, w: nat)   // worker `w` of file `f` is at the top of its loop
    | Read(e: ReadEvent)     // the reader moves on
    | Hand(f: nat, w: nat)   // the read a call waits for has ended

  // ---------------------------------------------------------------------- the chunks

  /** Where a hash is listed first. */
  function Find(names: seq<Manifest.Ref>, hash: Text): (k: nat)
    requires exists j :: 0 <= j < |names| && names[j].hash == hash
    ensures k < |names| && names[k].hash == hash
  {
    if names[0].hash == hash then 0
    else
      var j :| 0 <= j < |names| && names[j].hash == hash;
      assert names[1..][j - 1] == names[j];
      1 + Find(names[1..], hash)
  }

  lemma {:induction false} ChunkIsListed(files: seq<Manifest.File>, f: nat, i: nat)
    requires f < |files| && i < |files[f].chunks|
    ensures files[f].chunks[i] in Manifest.AllRefs(files)
  {
    if f < |files| - 1 {
      ChunkIsListed(files[..|files| - 1], f, i);
    }
  }

  /** The place a chunk of a file has among all of them. */
  function PlaceOf(files: seq<Manifest.File>, f: nat, i: nat): (k: nat)
    requires f < |files| && i < |files[f].chunks|
    ensures k < |Manifest.AllRefs(files)| && Manifest.AllRefs(files)[k].hash == files[f].chunks[i].hash
  {
    ChunkIsListed(files, f, i);
    var refs, ref := Manifest.AllRefs(files), files[f].chunks[i];
    var j :| 0 <= j < |refs| && refs[j] == ref;
    Find(refs, ref.hash)
  }

  /** With one size to a hash, it is that very chunk. */
  lemma {:induction false} PlacedIsTheChunk(files: seq<Manifest.File>, f: nat, i: nat)
    requires Manifest.Consistent(Manifest.AllRefs(files)) && f < |files| && i < |files[f].chunks|
    ensures Manifest.AllRefs(files)[PlaceOf(files, f, i)] == files[f].chunks[i]
  {
    ChunkIsListed(files, f, i);
    var refs, k := Manifest.AllRefs(files), PlaceOf(files, f, i);
    var j :| 0 <= j < |refs| && refs[j] == files[f].chunks[i];
    assert refs[j].hash == refs[k].hash;
    assert j < k || k < j || j == k;
  }

  // ------------------------------------------------------------------------ the steps

  predicate Shaped(files: seq<Manifest.File>, x: Verifying) {
    && |x.maps| == |files| && Known(Manifest.AllRefs(files), x.reading.reader)
    && forall f :: 0 <= f < |files| ==> |x.maps[f].results| == |files[f].chunks|
  }

  /** The outcome a call settles with. */
  function AnswerOf(outcome: ChunkReader.Outcome): BoundedMap.Answer {
    match outcome
    case Resolved(bytes) => BoundedMap.Resolved(bytes)
    case Rejected(error) => BoundedMap.Rejected(error)
  }

  function Ask(files: seq<Manifest.File>, f: nat, i: nat): ReadEvent
    requires f < |files| && i < |files[f].chunks|
  {
    ReadEvent(ChunkReader.Ask(PlaceOf(files, f, i)), false)
  }

  /** Whether worker `w` will call its next item rather than leave. */
  predicate Calls(m: BoundedMap.State) {
    m.failure.None? && m.next < |m.results|
  }

  predicate Happens(c: Primitives, files: seq<Manifest.File>, x: Verifying, e: Event) {
    && Shaped(files, x)
    && match e
       case Take(f, w) => f < |files| && BoundedMap.Enabled(x.maps[f], BoundedMap.Top(w))
       case Read(r) => !r.step.Ask? && ReadHappens(c, Manifest.AllRefs(files), x.reading, r)
       case Hand(f, w) =>
         && f < |files| && w < |x.maps[f].workers| && x.maps[f].workers[w].Calling?
         && (f, x.maps[f].workers[w].i) in x.asked
         && x.asked[(f, x.maps[f].workers[w].i)] < |x.reading.reader.queries|
         && ChunkReader.Ended(x.reading.reader.queries[x.asked[(f, x.maps[f].workers[w].i)]])
         && BoundedMap.Enabled(x.maps[f], BoundedMap.Settle(w, Outcome(x, f, w)))
  }

  function Outcome(x: Verifying, f: nat, w: nat): BoundedMap.Answer
    requires f < |x.maps| && w < |x.maps[f].workers| && x.maps[f].workers[w].Calling?
    requires (f, x.maps[f].workers[w].i) in x.asked
    requires var q := x.asked[(f, x.maps[f].workers[w].i)];
             q < |x.reading.reader.queries| && ChunkReader.Ended(x.reading.reader.queries[q])
  {
    AnswerOf(x.reading.reader.queries[x.asked[(f, x.maps[f].workers[w].i)]].place.outcome)
  }

  /** The read a caller of that chunk is given. */
  function GivenRead(r: ChunkReader.State, place: nat): nat {
    if place in r.inFlight then r.inFlight[place] else 0
  }

  function TakeStep(c: Primitives, files: seq<Manifest.File>, x: Verifying, f: nat, w: nat): Verifying
    requires Happens(c, files, x, Take(f, w))
  {
    var m := x.maps[f];
    var maps := x.maps[f := BoundedMap.TopStep(m, w)];
    if !Calls(m) then x.(maps := maps)
    else
      var reading := NextRead(c, Manifest.AllRefs(files), x.reading, Ask(files, f, m.next));
      Verifying(reading, maps, x.asked[(f, m.next) := GivenRead(reading.reader, PlaceOf(files, f, m.next))])
  }

  function Next(c: Primitives, files: seq<Manifest.File>, x: Verifying, e: Event): Verifying
    requires Happens(c, files, x, e)
  {
    match e
    case Take(f, w) => TakeStep(c, files, x, f, w)
    case Read(r) => x.(reading := NextRead(c, Manifest.AllRefs(files), x.reading, r))
    case Hand(f, w) => x.(maps := x.maps[f := BoundedMap.SettleStep(x.maps[f], w, Outcome(x, f, w))])
  }

  function Start(s: Store, files: seq<Manifest.File>): Verifying {
    Verifying(Reading(ChunkReader.START, s),
              seq(|files|, f requires 0 <= f < |files| =>
                BoundedMap.Start(|files[f].chunks|, ChunkReader.MAX_READS)),
              map[])
  }

  function After(c: Primitives, s: Store, files: seq<Manifest.File>, run: seq<Event>): Verifying {
    if run == [] then Start(s, files)
    else
      var before := After(c, s, files, run[..|run| - 1]);
      if Happens(c, files, before, run[|run| - 1]) then Next(c, files, before, run[|run| - 1]) else before
  }

  // -------------------------------------------------------------------- the invariant

  predicate MapsOk(files: seq<Manifest.File>, maps: seq<BoundedMap.State>) {
    && |maps| == |files|
    && forall f :: 0 <= f < |files| ==> MapOk(files[f], maps[f])
  }

  predicate MapOk(file: Manifest.File, m: BoundedMap.State) {
    && BoundedMap.Sound(m) && |m.answers| == |file.chunks|
    && |m.workers| == Min(ChunkReader.MAX_READS, |file.chunks|)
  }

  predicate ReaderOk(c: Primitives, files: seq<Manifest.File>, x: Reading) {
    ChunkReader.Sound(x.reader) && ReadsAgree(c, Manifest.AllRefs(files), x)
  }

  /** What was asked for is there, and it is the chunk. */
  predicate AskedOk(files: seq<Manifest.File>, r: ChunkReader.State, asked: Asked) {
    forall key <- asked ::
      && key.0 < |files| && key.1 < |files[key.0].chunks| && asked[key] < |r.queries|
      && r.queries[asked[key]].hash == PlaceOf(files, key.0, key.1)
  }

  predicate AskedFor(asked: Asked, q: nat) {
    exists key :: key in asked && asked[key] == q
  }

  /** Nobody but the maps asks. */
  predicate AllAsked(r: ChunkReader.State, asked: Asked) {
    forall q :: 0 <= q < |r.queries| ==> AskedFor(asked, q)
  }

  /** Only calls that were made have asked. */
  predicate OnlyCalled(asked: Asked, maps: seq<BoundedMap.State>) {
    forall key <- asked :: key.0 < |maps| && key.1 < maps[key.0].next
  }

  /** A call has settled as its read did. */
  predicate AnsweredBy(r: ChunkReader.State, asked: Asked, m: BoundedMap.State, f: nat, i: nat)
    requires i < |m.answers|
  {
    m.answers[i].Some? ==>
      && (f, i) in asked && asked[(f, i)] < |r.queries| && ChunkReader.Ended(r.queries[asked[(f, i)]])
      && m.answers[i].value == AnswerOf(r.queries[asked[(f, i)]].place.outcome)
  }

  predicate AllAnsweredBy(r: ChunkReader.State, asked: Asked, maps: seq<BoundedMap.State>) {
    forall f, i :: 0 <= f < |maps| && 0 <= i < |maps[f].answers| ==> AnsweredBy(r, asked, maps[f], f, i)
  }

  predicate Joined(c: Primitives, files: seq<Manifest.File>, x: Verifying) {
    && MapsOk(files, x.maps) && ReaderOk(c, files, x.reading)
    && AskedOk(files, x.reading.reader, x.asked) && AllAsked(x.reading.reader, x.asked)
    && OnlyCalled(x.asked, x.maps) && AllAnsweredBy(x.reading.reader, x.asked, x.maps)
  }

  // ------------------------------------------------------------------ the reader moves

  /** Reads that were there keep their hash, and their outcome once they have one. */
  predicate ReadsStay(r: ChunkReader.State, t: ChunkReader.State) {
    && |r.queries| <= |t.queries|
    && forall q :: 0 <= q < |r.queries| ==> ReadStays(r.queries[q], t.queries[q])
  }

  predicate ReadStays(a: ChunkReader.Read, b: ChunkReader.Read) {
    b.hash == a.hash && (ChunkReader.Ended(a) ==> ChunkReader.Ended(b) && b.place.outcome == a.place.outcome)
  }

  lemma {:induction false} OnlyAsksAdd(r: ChunkReader.State, e: ChunkReader.Step)
    requires ChunkReader.Sound(r) && ChunkReader.Enabled(r, e)
    ensures |r.queries| <= |ChunkReader.Next(r, e).queries|
    ensures !e.Ask? ==> |r.queries| == |ChunkReader.Next(r, e).queries|
  {
  }

  lemma {:induction false} StepLetsReadsStay(r: ChunkReader.State, e: ChunkReader.Step)
    requires ChunkReader.Sound(r) && ChunkReader.Enabled(r, e)
    ensures ReadsStay(r, ChunkReader.Next(r, e))
  {
    var t := ChunkReader.Next(r, e);
    OnlyAsksAdd(r, e);
    forall q | 0 <= q < |r.queries| ensures ReadStays(r.queries[q], t.queries[q]) {
      EndedStay(r, e, q);
    }
  }

  /** What has been asked for and answered stays so while reads and answers do. */
  lemma {:induction false} AnswerStays(r: ChunkReader.State, t: ChunkReader.State, asked: Asked, more: Asked,
                    m: BoundedMap.State, n: BoundedMap.State, f: nat, i: nat)
    requires ReadsStay(r, t) && i < |m.answers| && n.answers == m.answers && AnsweredBy(r, asked, m, f, i)
    requires (f, i) in asked ==> (f, i) in more && more[(f, i)] == asked[(f, i)]
    ensures AnsweredBy(t, more, n, f, i)
  {
    if m.answers[i].Some? {
      assert ReadStays(r.queries[asked[(f, i)]], t.queries[asked[(f, i)]]);
    }
  }

  lemma {:induction false} AnswersStay(r: ChunkReader.State, t: ChunkReader.State, asked: Asked, more: Asked,
                    maps: seq<BoundedMap.State>, later: seq<BoundedMap.State>)
    requires ReadsStay(r, t) && AllAnsweredBy(r, asked, maps)
    requires |later| == |maps| && forall f :: 0 <= f < |maps| ==> later[f].answers == maps[f].answers
    requires forall key <- asked :: key in more && more[key] == asked[key]
    ensures AllAnsweredBy(t, more, later)
  {
    forall f, i | 0 <= f < |later| && 0 <= i < |later[f].answers| ensures AnsweredBy(t, more, later[f], f, i) {
      assert AnsweredBy(r, asked, maps[f], f, i);
      AnswerStays(r, t, asked, more, maps[f], later[f], f, i);
    }
  }

  lemma {:induction false} AskedStay(files: seq<Manifest.File>, r: ChunkReader.State, t: ChunkReader.State,
                                     asked: Asked)
    requires AskedOk(files, r, asked) && ReadsStay(r, t)
    ensures AskedOk(files, t, asked)
  {
    forall key | key in asked ensures t.queries[asked[key]].hash == PlaceOf(files, key.0, key.1) {
      assert ReadStays(r.queries[asked[key]], t.queries[asked[key]]);
    }
  }

  lemma {:induction false} ReadStepOk(c: Primitives, files: seq<Manifest.File>, x: Reading, e: ReadEvent)
    requires ReaderOk(c, files, x) && ReadHappens(c, Manifest.AllRefs(files), x, e)
    ensures ReaderOk(c, files, NextRead(c, Manifest.AllRefs(files), x, e))
    ensures ReadsStay(x.reader, NextRead(c, Manifest.AllRefs(files), x, e).reader)
  {
    ChunkReader.NextIsSound(x.reader, e.step);
    NextReadAgrees(c, Manifest.AllRefs(files), x, e);
    StepLetsReadsStay(x.reader, e.step);
  }

  lemma {:induction false} ReadJoins(c: Primitives, files: seq<Manifest.File>, x: Verifying, e: ReadEvent)
    requires Joined(c, files, x) && Happens(c, files, x, Read(e))
    ensures Joined(c, files, Next(c, files, x, Read(e)))
  {
    var y := Next(c, files, x, Read(e));
    ReadStepOk(c, files, x.reading, e);
    OnlyAsksAdd(x.reading.reader, e.step);
    AskedStay(files, x.reading.reader, y.reading.reader, x.asked);
    AnswersStay(x.reading.reader, y.reading.reader, x.asked, x.asked, x.maps, x.maps);
  }

  // -------------------------------------------------------------------- a map moves on

  lemma {:induction false} NobodyMoves(r: ChunkReader.State)
    ensures ReadsStay(r, r)
  {
  }

  lemma {:induction false} OneMapMoves(files: seq<Manifest.File>, maps: seq<BoundedMap.State>, f: nat,
                                       m: BoundedMap.State)
    requires MapsOk(files, maps) && f < |maps| && MapOk(files[f], m)
    ensures MapsOk(files, maps[f := m])
  {
  }

  lemma {:induction false} CalledStay(asked: Asked, maps: seq<BoundedMap.State>, f: nat, m: BoundedMap.State)
    requires OnlyCalled(asked, maps) && f < |maps| && maps[f].next <= m.next
    ensures OnlyCalled(asked, maps[f := m])
  {
  }

  lemma {:induction false} SettleEffect(m: BoundedMap.State, w: nat, answer: BoundedMap.Answer)
    requires BoundedMap.Sound(m) && BoundedMap.Enabled(m, BoundedMap.Settle(w, answer))
    ensures var n, i := BoundedMap.SettleStep(m, w, answer), m.workers[w].i;
            && BoundedMap.Sound(n) && |n.workers| == |m.workers| && n.next == m.next
            && i < |m.answers| && n.answers == m.answers[i := Some(answer)]
  {
    BoundedMap.NextIsSound(m, BoundedMap.Settle(w, answer));
  }

  lemma {:induction false} HandedAnswers(x: Verifying, f: nat, w: nat, n: BoundedMap.State)
    requires AllAnsweredBy(x.reading.reader, x.asked, x.maps)
    requires f < |x.maps| && w < |x.maps[f].workers| && x.maps[f].workers[w].Calling?
    requires (f, x.maps[f].workers[w].i) in x.asked
    requires var q := x.asked[(f, x.maps[f].workers[w].i)];
             q < |x.reading.reader.queries| && ChunkReader.Ended(x.reading.reader.queries[q])
    requires var i := x.maps[f].workers[w].i;
             i < |x.maps[f].answers| && n.answers == x.maps[f].answers[i := Some(Outcome(x, f, w))]
    ensures AllAnsweredBy(x.reading.reader, x.asked, x.maps[f := n])
  {
    var r, later := x.reading.reader, x.maps[f := n];
    forall g, i | 0 <= g < |later| && 0 <= i < |later[g].answers| ensures AnsweredBy(r, x.asked, later[g], g, i) {
      assert AnsweredBy(r, x.asked, x.maps[g], g, i);
    }
  }

  lemma {:induction false} HandJoins(c: Primitives, files: seq<Manifest.File>, x: Verifying, f: nat, w: nat)
    requires Joined(c, files, x) && Happens(c, files, x, Hand(f, w))
    ensures Joined(c, files, Next(c, files, x, Hand(f, w)))
  {
    var n := BoundedMap.SettleStep(x.maps[f], w, Outcome(x, f, w));
    SettleEffect(x.maps[f], w, Outcome(x, f, w));
    OneMapMoves(files, x.maps, f, n);
    CalledStay(x.asked, x.maps, f, n);
    HandedAnswers(x, f, w, n);
  }

  /** A caller is given a read of its chunk: one that is in flight, or the one new read. */
  lemma {:induction false} AskGives(r: ChunkReader.State, place: nat)
    requires ChunkReader.Sound(r)
    ensures var t := ChunkReader.Next(r, ChunkReader.Ask(place));
            && GivenRead(t, place) < |t.queries| && t.queries[GivenRead(t, place)].hash == place
            && (t == r || (|t.queries| == |r.queries| + 1 && GivenRead(t, place) == |r.queries|))
  {
    ChunkReader.NextIsSound(r, ChunkReader.Ask(place));
  }

  lemma {:induction false} TopEffect(m: BoundedMap.State, w: nat)
    requires BoundedMap.Sound(m) && BoundedMap.Enabled(m, BoundedMap.Top(w))
    ensures var n := BoundedMap.TopStep(m, w);
            && BoundedMap.Sound(n) && |n.workers| == |m.workers| && n.answers == m.answers
            && n.next == if Calls(m) then m.next + 1 else m.next
  {
    BoundedMap.NextIsSound(m, BoundedMap.Top(w));
  }

  lemma {:induction false} LeaveJoins(c: Primitives, files: seq<Manifest.File>, x: Verifying, f: nat, w: nat)
    requires Joined(c, files, x) && Happens(c, files, x, Take(f, w)) && !Calls(x.maps[f])
    ensures Joined(c, files, Next(c, files, x, Take(f, w)))
  {
    var n := BoundedMap.TopStep(x.maps[f], w);
    TopEffect(x.maps[f], w);
    OneMapMoves(files, x.maps, f, n);
    CalledStay(x.asked, x.maps, f, n);
    NobodyMoves(x.reading.reader);
    AnswersStay(x.reading.reader, x.reading.reader, x.asked, x.asked, x.maps, x.maps[f := n]);
  }

  lemma {:induction false} OneMoreAsked(files: seq<Manifest.File>, t: ChunkReader.State, asked: Asked,
                                        f: nat, i: nat, q: nat)
    requires AskedOk(files, t, asked) && f < |files| && i < |files[f].chunks|
    requires q < |t.queries| && t.queries[q].hash == PlaceOf(files, f, i)
    ensures AskedOk(files, t, asked[(f, i) := q])
  {
  }

  /** A key that is new loses no read. */
  lemma {:induction false} AllStillAsked(r: ChunkReader.State, t: ChunkReader.State, asked: Asked,
                                         key: (nat, nat), q: nat)
    requires AllAsked(r, asked) && key !in asked
    requires t == r || (|t.queries| == |r.queries| + 1 && q == |r.queries|)
    ensures AllAsked(t, asked[key := q])
  {
    var more := asked[key := q];
    forall p: nat | p < |t.queries| ensures AskedFor(more, p) {
      if p < |r.queries| {
        assert AskedFor(asked, p);
        var k :| k in asked && asked[k] == p;
        assert k in more && more[k] == p;
      } else {
        assert key in more && more[key] == p;
      }
    }
  }

  lemma {:induction false} OneMoreCalled(asked: Asked, maps: seq<BoundedMap.State>, f: nat, m: BoundedMap.State, q: nat)
    requires OnlyCalled(asked, maps) && f < |maps| && m.next == maps[f].next + 1
    ensures (f, maps[f].next) !in asked && OnlyCalled(asked[(f, maps[f].next) := q], maps[f := m])
  {
  }

  /** What a call does: the reader is asked, the map moves on, and the call is given its read. */
  lemma {:induction false} CallEffect(c: Primitives, files: seq<Manifest.File>, x: Verifying, f: nat, w: nat)
    requires Happens(c, files, x, Take(f, w)) && Calls(x.maps[f])
    ensures ReadHappens(c, Manifest.AllRefs(files), x.reading, Ask(files, f, x.maps[f].next))
    ensures var reading := NextRead(c, Manifest.AllRefs(files), x.reading, Ask(files, f, x.maps[f].next));
            && reading.reader == ChunkReader.Next(x.reading.reader, ChunkReader.Ask(PlaceOf(files, f, x.maps[f].next)))
            && Next(c, files, x, Take(f, w)) ==
                 Verifying(reading, x.maps[f := BoundedMap.TopStep(x.maps[f], w)],
                           x.asked[(f, x.maps[f].next) := GivenRead(reading.reader, PlaceOf(files, f, x.maps[f].next))])
  {
  }

  lemma {:induction false} CallAsks(files: seq<Manifest.File>, r: ChunkReader.State, asked: Asked, f: nat, i: nat)
    requires ChunkReader.Sound(r) && AskedOk(files, r, asked) && AllAsked(r, asked)
    requires f < |files| && i < |files[f].chunks| && (f, i) !in asked
    ensures var t := ChunkReader.Next(r, ChunkReader.Ask(PlaceOf(files, f, i)));
            var more := asked[(f, i) := GivenRead(t, PlaceOf(files, f, i))];
            AskedOk(files, t, more) && AllAsked(t, more)
  {
    var place := PlaceOf(files, f, i);
    var t := ChunkReader.Next(r, ChunkReader.Ask(place));
    AskGives(r, place);
    StepLetsReadsStay(r, ChunkReader.Ask(place));
    AskedStay(files, r, t, asked);
    OneMoreAsked(files, t, asked, f, i, GivenRead(t, place));
    AllStillAsked(r, t, asked, (f, i), GivenRead(t, place));
  }

  lemma {:induction false} CallMoves(files: seq<Manifest.File>, asked: Asked, maps: seq<BoundedMap.State>, f: nat,
                                     w: nat, q: nat)
    requires MapsOk(files, maps) && OnlyCalled(asked, maps) && f < |files|
    requires BoundedMap.Enabled(maps[f], BoundedMap.Top(w)) && Calls(maps[f])
    ensures var later := maps[f := BoundedMap.TopStep(maps[f], w)];
            && MapsOk(files, later) && (f, maps[f].next) !in asked && OnlyCalled(asked[(f, maps[f].next) := q], later)
            && forall g :: 0 <= g < |maps| ==> later[g].answers == maps[g].answers
  {
    var n := BoundedMap.TopStep(maps[f], w);
    TopEffect(maps[f], w);
    OneMapMoves(files, maps, f, n);
    OneMoreCalled(asked, maps, f, n, q);
  }

  lemma {:induction false} CallJoins(c: Primitives, files: seq<Manifest.File>, x: Verifying, f: nat, w: nat)
    requires Joined(c, files, x) && Happens(c, files, x, Take(f, w)) && Calls(x.maps[f])
    ensures Joined(c, files, Next(c, files, x, Take(f, w)))
  {
    var y := Next(c, files, x, Take(f, w));
    CallEffect(c, files, x, f, w);
    var key := (f, x.maps[f].next);
    CallMoves(files, x.asked, x.maps, f, w, y.asked[key]);
    CallAsks(files, x.reading.reader, x.asked, f, x.maps[f].next);
    ReadStepOk(c, files, x.reading, Ask(files, f, x.maps[f].next));
    AnswersStay(x.reading.reader, y.reading.reader, x.asked, y.asked, x.maps, y.maps);
  }

  lemma {:induction false} NextJoins(c: Primitives, files: seq<Manifest.File>, x: Verifying, e: Event)
    requires Joined(c, files, x) && Happens(c, files, x, e)
    ensures Joined(c, files, Next(c, files, x, e))
  {
    match e
    case Take(f, w) => if Calls(x.maps[f]) { CallJoins(c, files, x, f, w); } else { LeaveJoins(c, files, x, f, w); }
    case Read(r) => ReadJoins(c, files, x, r);
    case Hand(f, w) => HandJoins(c, files, x, f, w);
  }

  lemma {:induction false} StartJoins(c: Primitives, s: Store, files: seq<Manifest.File>)
    ensures Joined(c, files, Start(s, files))
  {
    var x := Start(s, files);
    ChunkReader.RunIsSound([]);
    forall f | 0 <= f < |files| ensures MapOk(files[f], x.maps[f]) {
      BoundedMap.RunIsSound(|files[f].chunks|, ChunkReader.MAX_READS, []);
    }
  }

  lemma {:induction false} ReadsKeepTheRest(c: Primitives, files: seq<Manifest.File>, x: Verifying, e: Event)
    requires Happens(c, files, x, e)
    ensures Next(c, files, x, e).reading.store.row == x.reading.store.row
    ensures Next(c, files, x, e).reading.store.manifests == x.reading.store.manifests
  {
    SyncIndex.PutsAndReadsKeepTheRest(c, x.reading.store);
  }

  /** In every interleaving each read was asked for by a call, and each call settles as its read does. */
  lemma {:induction false} RunIsJoined(c: Primitives, s: Store, files: seq<Manifest.File>, run: seq<Event>)
    ensures Joined(c, files, After(c, s, files, run))
    ensures After(c, s, files, run).reading.store.row == s.row
    ensures After(c, s, files, run).reading.store.manifests == s.manifests
  {
    if run == [] {
      StartJoins(c, s, files);
    } else {
      var before, e := After(c, s, files, run[..|run| - 1]), run[|run| - 1];
      RunIsJoined(c, s, files, run[..|run| - 1]);
      if Happens(c, files, before, e) {
        NextJoins(c, files, before, e);
        ReadsKeepTheRest(c, files, before, e);
      }
    }
  }

  // ---------------------------------------------------------------- files from the reads

  /** What a map resolves to. */
  function Parts(m: BoundedMap.State): seq<Bytes> {
    seq(|m.results|, i requires 0 <= i < |m.results| => if m.results[i].Some? then m.results[i].value else [])
  }

  /** The map over the file's chunks has resolved, and its bytes have the signed hash. */
  predicate Reassembled(c: Primitives, file: Manifest.File, m: BoundedMap.State) {
    BoundedMap.Done(m) && m.failure.None? && c.sha(SyncIndex.Flatten(Parts(m))) == file.sha
  }

  predicate AllReassembled(c: Primitives, files: seq<Manifest.File>, maps: seq<BoundedMap.State>)
    requires |maps| == |files|
  {
    forall f :: 0 <= f < |files| ==> Reassembled(c, files[f], maps[f])
  }

  /** A call of a map that has resolved, with the read it was given. */
  lemma {:induction false} CallResolved(c: Primitives, files: seq<Manifest.File>, x: Verifying, f: nat, i: nat)
    requires Joined(c, files, x) && f < |files| && Reassembled(c, files[f], x.maps[f]) && i < |files[f].chunks|
    ensures (f, i) in x.asked && x.asked[(f, i)] < |x.reading.reader.queries|
    ensures var q := x.reading.reader.queries[x.asked[(f, i)]];
            && ChunkReader.Ended(q) && q.place.outcome.Resolved?
            && i < |x.maps[f].results| && x.maps[f].results[i] == Some(q.place.outcome.bytes)
  {
    BoundedMap.DoneMeansAllResolved(x.maps[f], ChunkReader.MAX_READS);
    assert AnsweredBy(x.reading.reader, x.asked, x.maps[f], f, i);
  }

  /** No read has failed, for whoever asked for it would have rejected. */
  lemma {:induction false} NoReadFailed(c: Primitives, files: seq<Manifest.File>, x: Verifying)
    requires Joined(c, files, x) && AllReassembled(c, files, x.maps)
    ensures AllResolved(x.reading.reader)
  {
    var r := x.reading.reader;
    forall q: nat | q < |r.queries| && ChunkReader.Ended(r.queries[q]) ensures r.queries[q].place.outcome.Resolved? {
      assert AskedFor(x.asked, q);
      var key :| key in x.asked && x.asked[key] == q;
      CallResolved(c, files, x, key.0, key.1);
    }
  }

  lemma {:induction false} PartIsPlain(c: Primitives, files: seq<Manifest.File>, x: Verifying, f: nat, i: nat)
    requires Manifest.Consistent(Manifest.AllRefs(files)) && Joined(c, files, x) && AllReassembled(c, files, x.maps)
    requires f < |files| && i < |files[f].chunks|
    ensures i < |Parts(x.maps[f])|
    ensures SyncIndex.Plain(c, x.reading.store.table, files[f].chunks[i]) == Some(Parts(x.maps[f])[i])
  {
    NoReadFailed(c, files, x);
    CallResolved(c, files, x, f, i);
    PlacedIsTheChunk(files, f, i);
    assert ReadAgrees(c, Manifest.AllRefs(files), x.reading, x.asked[(f, i)]);
  }

  lemma {:induction false} PlainPartsAssemble(c: Primitives, table: SyncIndex.Table, chunks: seq<Manifest.Ref>,
                                              parts: seq<Bytes>)
    requires |parts| == |chunks|
    requires forall i :: 0 <= i < |chunks| ==> SyncIndex.Plain(c, table, chunks[i]) == Some(parts[i])
    ensures SyncIndex.Assembled(c, table, chunks) == Some(SyncIndex.Flatten(parts))
  {
    if chunks != [] {
      PlainPartsAssemble(c, table, chunks[..|chunks| - 1], parts[..|parts| - 1]);
    }
  }

  lemma {:induction false} FileIsRebuilt(c: Primitives, files: seq<Manifest.File>, x: Verifying, f: nat)
    requires Manifest.Consistent(Manifest.AllRefs(files)) && Joined(c, files, x) && AllReassembled(c, files, x.maps)
    requires f < |files| && Manifest.TotalSize(files[f].chunks) == files[f].size
    ensures SyncIndex.Rebuilt(c, x.reading.store.table, files[f])
  {
    var chunks, parts := files[f].chunks, Parts(x.maps[f]);
    forall i | 0 <= i < |chunks| ensures SyncIndex.Plain(c, x.reading.store.table, chunks[i]) == Some(parts[i]) {
      PartIsPlain(c, files, x, f, i);
    }
    PlainPartsAssemble(c, x.reading.store.table, chunks, parts);
    SyncIndex.AssembledSize(c, x.reading.store.table, chunks);
  }

  /**
   * However the maps, the reads they share and the store's answers interleave: when every file's map
   * has resolved with bytes of the signed hash, the store has all of the files, all at once, and row and
   * manifests are as they were. This is what `SyncIndex.VerifyReassembly` promises.
   */
  lemma {:induction false} FilesAreRebuilt(c: Primitives, s: Store, files: seq<Manifest.File>, run: seq<Event>)
    requires Manifest.ChunksFill(files) && Manifest.Consistent(Manifest.AllRefs(files))
    requires var x := After(c, s, files, run); |x.maps| == |files| && AllReassembled(c, files, x.maps)
    ensures var t := After(c, s, files, run).reading.store;
            SyncIndex.FilesRebuilt(c, t.table, files) && t.row == s.row && t.manifests == s.manifests
  {
    RunIsJoined(c, s, files, run);
    var x := After(c, s, files, run);
    forall f | 0 <= f < |files| ensures SyncIndex.Rebuilt(c, x.reading.store.table, files[f]) {
      FileIsRebuilt(c, files, x, f);
    }
  }
}
