/**
 A whole run of the corpus generator: the base phase, the noise phase, the interleaved
 writing, and the draws that follow it.
 */
module CorpusRun {
  import opened Numbers
  import opened Wrappers
  import opened RandomStream
  import opened Sequences
  import opened Sorting
  import opened CorpusTraces
  import opened CorpusNeedles
  import opened CorpusEmit
  import opened CorpusMerge

  const SAVED_TRACES: nat := 40
  const IN_SIZES: seq<nat> := [1, 10, 100, 1000]

  datatype Args = Args(traces: nat, shape: Shape, hours: Hours, scale: nat, noiseOnly: bool)

  // What the argument parser accepts, with ids and span ids inside their spaces.
  predicate ValidArgs(a: Args) {
    && a.traces >= 1 && a.hours.count >= 1 && a.shape.spans >= 1 && a.shape.logs >= 1 && a.scale >= 1
    && (a.hours.even ==> a.traces % a.hours.count == 0)
    && a.scale * a.traces < ID_SPACE && a.shape.spans <= SPAN_ID_HALF
  }

  function LogRowsOf(a: Args): nat { a.traces * a.shape.logs }

  // --- the base phase --------------------------------------------------------

  // The base traces with everything planted in them, and the base generator's position.
  datatype Base = Base(traces: seq<Trace>, planted: seq<nat>, plan: Plan, presentRow: int, saved: seq<nat>,
                       seen: set<nat>, pos: nat)

  ghost predicate Runs(st: Stream, a: Args) {
    && Lawful(st) && ValidArgs(a) && a.traces < ID_SPACE
    && (a.noiseOnly ||
        var d := Drawn(st, 0, a.traces, a.hours, {});
        PlanEnds(st, PlantedIndices(st, d.2, Sort(d.0, StartsBefore), a.hours).1, LogRowsOf(a)))
  }

  function SavedAt(st: Stream, p: nat, n: nat): (seq<nat>, nat) {
    var (s, q) := st.sample(p, n, Min(SAVED_TRACES, n));
    (Sort(s, Leq), q)
  }

  function BasePhase(st: Stream, a: Args): Base
    requires Runs(st, a)
  {
    var (drawn, seen, p) := Drawn(st, 0, a.traces, a.hours, {});
    var ts := Sort(drawn, StartsBefore);
    if a.noiseOnly then
      var (saved, q) := SavedAt(st, p, a.traces);
      Base(ts, [], Plan([], [], []), -1, saved, seen, q)
    else
      var (planted, p1) := PlantedIndices(st, p, ts, a.hours);
      var (plan, p2) := NeedlePlan(st, p1, LogRowsOf(a));
      var (row, p3) := st.pull(Range(0, LogRowsOf(a)), p2);
      var (saved, q) := SavedAt(st, p3, a.traces);
      Base(Planted(ts, planted, a.hours), planted, plan, row, saved, seen, q)
  }

  method BuildBase(rng: Random, a: Args) returns (b: Base)
    requires rng.pos == 0 && Runs(rng.stream, a)
    modifies rng
    ensures b == BasePhase(rng.stream, a) && rng.pos == b.pos
  {
    hide Lawful, Drawn, Sort, PlantedIndices, PlanEnds, NeedlePlan, Planted;
    ghost var st := rng.stream;
    var drawn, seen := DrawTraces(rng, a.traces, a.hours, {});
    ghost var d := Drawn(st, 0, a.traces, a.hours, {});
    assert |drawn| == |Sort(d.0, StartsBefore)| == a.traces;
    var base := new Trace[a.traces](i requires 0 <= i < |drawn| => drawn[i]);
    assert base[..] == drawn;
    var planted, plan := [], Plan([], [], []);
    var presentRow: int := -1;
    if !a.noiseOnly {
      planted := Plant(base, rng, a.hours);
      plan := PlanNeedles(rng, LogRowsOf(a));
      presentRow := rng.Draw(Range(0, LogRowsOf(a)));
    }
    var sample := rng.Sample(a.traces, Min(SAVED_TRACES, a.traces));
    b := Base(base[..], planted, plan, presentRow, Sort(sample, Leq), seen, rng.pos);
  }

  // Base traces are sorted, well timed and distinct, and the rows planted in them exist.
  lemma BaseFacts(st: Stream, a: Args)
    requires Runs(st, a)
    ensures var b := BasePhase(st, a);
            && |b.traces| == a.traces && Sorted(b.traces, StartsBefore) && DistinctIds(b.traces)
            && AllWellTimed(b.traces, a.hours) && b.seen == Ids(b.traces) && |b.seen| == a.traces
            && (a.noiseOnly ==> b.presentRow == -1) && (!a.noiseOnly ==> 0 <= b.presentRow < LogRowsOf(a))
  {
    hide Lawful, Sort, NeedlePlan, PlanEnds, AllWellTimed, Drawn, PlantedIndices, Ids, DistinctIds, Sorted, SavedAt;
    var (drawn, seen, p) := Drawn(st, 0, a.traces, a.hours, {});
    var ts := Sort(drawn, StartsBefore);
    DrawnIds(st, 0, a.traces, a.hours, {});
    DrawnSorted(st, 0, a.traces, a.hours, {});
    var b := BasePhase(st, a);
    if !a.noiseOnly {
      assert SameTimes(ts, b.traces);
      SameTimesFacts(ts, b.traces, a.hours);
      PresentRowInRange(st, NeedlePlan(st, PlantedIndices(st, p, ts, a.hours).1, LogRowsOf(a)).1, a);
    }
  }

  lemma PresentRowInRange(st: Stream, p: nat, a: Args)
    requires Lawful(st) && ValidArgs(a)
    ensures st.pull(Range(0, LogRowsOf(a)), p).0 < LogRowsOf(a)
  {
    assert LogRowsOf(a) > 0;
    assert InSpace(Range(0, LogRowsOf(a)), 0);
  }

  lemma SameTimesFacts(s: seq<Trace>, t: seq<Trace>, hs: Hours)
    requires SameTimes(s, t) && Sorted(s, StartsBefore) && DistinctIds(s) && AllWellTimed(s, hs)
    ensures Sorted(t, StartsBefore) && DistinctIds(t) && AllWellTimed(t, hs) && Ids(t) == Ids(s)
  {
  }

  // --- the noise phase -------------------------------------------------------

  function NoiseCount(a: Args): nat
    requires a.scale >= 1
  {
    (a.scale - 1) * a.traces
  }

  function RelocatedAll(ts: seq<Trace>, hs: Hours): (r: seq<Trace>)
    ensures |r| == |ts| && forall i :: 0 <= i < |ts| ==> r[i] == Relocated(ts[i], hs)
  {
    seq(|ts|, i requires 0 <= i < |ts| => Relocated(ts[i], hs))
  }

  // The noise traces and the noise generator's position; no draw at scale 1.
  function NoisePhase(nst: Stream, a: Args, seen: set<nat>): (seq<Trace>, nat)
    requires Lawful(nst) && ValidArgs(a) && |seen| == a.traces
  {
    if a.scale == 1 then ([], 0)
    else
      NoiseFits(a);
      var (drawn, _, p) := Drawn(nst, 0, NoiseCount(a), a.hours, seen);
      (RelocatedAll(Sort(drawn, StartsBefore), a.hours), p)
  }

  lemma NoiseFits(a: Args)
    requires ValidArgs(a)
    ensures a.traces + NoiseCount(a) == a.scale * a.traces
  {
  }

  method BuildNoise(nrng: Random, a: Args, seen: set<nat>) returns (noise: seq<Trace>)
    requires nrng.pos == 0 && Lawful(nrng.stream) && ValidArgs(a) && |seen| == a.traces
    modifies nrng
    ensures (noise, nrng.pos) == NoisePhase(nrng.stream, a, seen)
  {
    hide Lawful, Drawn, Sort;
    noise := [];
    if a.scale > 1 {
      NoiseFits(a);
      var drawn, _ := DrawTraces(nrng, NoiseCount(a), a.hours, seen);
      var ts := new Trace[|drawn|](i requires 0 <= i < |drawn| => drawn[i]);
      assert ts[..] == drawn;
      Relocate(ts, a.hours);
      noise := ts[..];
      assert noise == RelocatedAll(drawn, a.hours);
    }
  }

  lemma NoiseFacts(nst: Stream, a: Args, seen: set<nat>)
    requires Lawful(nst) && ValidArgs(a) && |seen| == a.traces
    ensures var n := NoisePhase(nst, a, seen).0;
            && |n| == NoiseCount(a) && Sorted(n, StartsBefore) && DistinctIds(n) && AllWellTimed(n, a.hours)
            && Ids(n) !! seen && forall i :: 0 <= i < |n| ==> !InCell(n[i], a.hours)
  {
    hide Lawful, Sort, AllWellTimed, Drawn, Ids, DistinctIds, Sorted, InFailingHour;
    if a.scale > 1 {
      NoiseFits(a);
      DrawnSorted(nst, 0, NoiseCount(a), a.hours, seen);
      var ts := Sort(Drawn(nst, 0, NoiseCount(a), a.hours, seen).0, StartsBefore);
      assert SameTimes(ts, RelocatedAll(ts, a.hours));
      SameTimesFacts(ts, RelocatedAll(ts, a.hours), a.hours);
    } else {
      EmptyFacts(a.hours);
    }
  }

  lemma EmptyFacts(hs: Hours)
    ensures AllWellTimed([], hs) && Ids([]) == {} && DistinctIds([]) && Sorted([], StartsBefore)
  {
  }

  // --- the run ---------------------------------------------------------------

  function RowsAs(rows: seq<nat>, v: Needle): map<nat, Needle> {
    map r: nat | r in rows :: v
  }

  // Which row carries which needle; a later tier would overwrite an earlier one.
  function NeedleOf(plan: Plan): map<nat, Needle> {
    RowsAs(plan.rare, Rare) + RowsAs(plan.sparse, Sparse) + RowsAs(plan.common, Common)
  }

  function MarksOf(b: Base): Marks { Marks(NeedleOf(b.plan), Some(b.presentRow)) }

  method FillTier(before: map<nat, Needle>, rows: seq<nat>, v: Needle) returns (m: map<nat, Needle>)
    ensures m == before + RowsAs(rows, v)
  {
    m := before;
    for i := 0 to |rows|
      invariant m == before + RowsAs(rows[..i], v)
    {
      assert rows[..i + 1] == rows[..i] + [rows[i]];
      m := m[rows[i] := v];
    }
    assert rows[..|rows|] == rows;
  }

  method BuildMarks(b: Base) returns (m: Marks)
    ensures m == MarksOf(b)
  {
    var needleOf := FillTier(map[], b.plan.rare, Rare);
    assert needleOf == RowsAs(b.plan.rare, Rare);
    needleOf := FillTier(needleOf, b.plan.sparse, Sparse);
    needleOf := FillTier(needleOf, b.plan.common, Common);
    m := Marks(needleOf, Some(b.presentRow));
  }

  // Everything a run writes, and the base generator's position after writing.
  datatype Corpus = Corpus(base: Base, noise: seq<Trace>, spans: seq<Span>, logs: seq<Log>, pos: nat)

  function BaseRows(st: Stream, a: Args): Emission
    requires Runs(st, a)
  {
    var b := BasePhase(st, a);
    Emitted(st, b.pos, b.traces, |b.traces|, a.shape, MarksOf(b), true)
  }

  function NoiseRows(st: Stream, nst: Stream, a: Args): Emission
    requires Runs(st, a) && Lawful(nst)
  {
    BaseFacts(st, a);
    var (noise, p) := NoisePhase(nst, a, BasePhase(st, a).seen);
    Emitted(nst, p, noise, |noise|, a.shape, NO_MARKS, false)
  }

  function CorpusOf(st: Stream, nst: Stream, a: Args): Corpus
    requires Runs(st, a) && Lawful(nst)
  {
    BaseFacts(st, a);
    var b := BasePhase(st, a);
    var noise := NoisePhase(nst, a, b.seen).0;
    var eb, en := BaseRows(st, a), NoiseRows(st, nst, a);
    var order := MergeFrom(b.traces, 0, noise, 0);
    MergeIndexed(b.traces, 0, noise, 0);
    Corpus(b, noise, Flatten(Woven(order, eb.spans, en.spans)), Flatten(Woven(order, eb.logs, en.logs)), eb.pos)
  }

  // main: from two freshly seeded generators to the written files, with the file position
  // of every needle row.
  method Generate(rng: Random, nrng: Random, a: Args) returns (c: Corpus, at: Positions)
    requires rng != nrng && rng.pos == 0 && nrng.pos == 0 && Runs(rng.stream, a) && Lawful(nrng.stream)
    modifies rng, nrng
    ensures c == CorpusOf(rng.stream, nrng.stream, a) && rng.pos == c.pos
    ensures at == Positioned(c.logs)
  {
    hide Lawful, BasePhase, NoisePhase, MarksOf, Emitted, MergeFrom, Woven, Flatten, Positioned, Sorted, Ids,
         AllWellTimed;
    var base := BuildBase(rng, a);
    BaseFacts(rng.stream, a);
    var marks := BuildMarks(base);
    var noise := BuildNoise(nrng, a, base.seen);
    var spans := new Sink<Span>();
    var logs := new Sink<Log>();
    at := WriteRows(rng, nrng, base.traces, noise, a.shape, marks, spans, logs);
    c := Corpus(base, noise, spans.rows, logs.rows, rng.pos);
  }

  // --- noninterference -------------------------------------------------------

  function SpanOwner(s: Span): nat { s.traceId }

  function LogOwner(l: Log): nat { l.traceId }

  lemma EmissionOwned(st: Stream, p: nat, ts: seq<Trace>, shape: Shape, m: Marks, base: bool, hs: Hours)
    requires Lawful(st) && shape.spans <= SPAN_ID_HALF && AllWellTimed(ts, hs)
    ensures var e := Emitted(st, p, ts, |ts|, shape, m, base);
            && Owned(e.spans, IdSeq(ts), SpanOwner) && Owned(e.logs, IdSeq(ts), LogOwner)
            && Uniform(e.spans, shape.spans) && Uniform(e.logs, shape.logs)
  {
    hide Lawful, Emitted, AllWellTimed;
    var e := Emitted(st, p, ts, |ts|, shape, m, base);
    forall i | 0 <= i < |ts|
      ensures Carries(e.spans[i], SpanOwner, ts[i].id) && Carries(e.logs[i], LogOwner, ts[i].id)
      ensures |e.spans[i]| == shape.spans && |e.logs[i]| == shape.logs
    {
      EmittedFacts(st, p, ts, i, shape, m, base, hs);
    }
  }

  lemma WovenOwned<T>(order: seq<Step>, base: seq<Trace>, noise: seq<Trace>, b: seq<seq<T>>, n: seq<seq<T>>,
                      key: T -> nat, size: nat)
    requires Indexed(order, |base|, |noise|)
    requires Owned(b, IdSeq(base), key) && Owned(n, IdSeq(noise), key) && Uniform(b, size) && Uniform(n, size)
    ensures Owned(Woven(order, b, n), IdSeq(Woven(order, base, noise)), key) && Uniform(Woven(order, b, n), size)
  {
    forall k | 0 <= k < |order|
      ensures Carries(Woven(order, b, n)[k], key, Woven(order, base, noise)[k].id) && |Woven(order, b, n)[k]| == size
    {
      match order[k] {
        case FromBase(i) => assert Carries(b[i], key, IdSeq(base)[i]);
        case FromNoise(i) => assert Carries(n[i], key, IdSeq(noise)[i]);
      }
    }
  }

  // The written blocks and the traces that own them.
  datatype Written = Written(owners: seq<Trace>, spans: seq<seq<Span>>, logs: seq<seq<Log>>)

  function WrittenBlocks(st: Stream, nst: Stream, a: Args): Written
    requires Runs(st, a) && Lawful(nst)
  {
    BaseFacts(st, a);
    var b := BasePhase(st, a);
    var noise := NoisePhase(nst, a, b.seen).0;
    var eb, en := BaseRows(st, a), NoiseRows(st, nst, a);
    var order := MergeFrom(b.traces, 0, noise, 0);
    MergeIndexed(b.traces, 0, noise, 0);
    Written(Merged(b.traces, 0, noise, 0), Woven(order, eb.spans, en.spans), Woven(order, eb.logs, en.logs))
  }

  // Every written block belongs to one trace and has the asked number of rows.
  lemma BlocksOwned(st: Stream, nst: Stream, a: Args)
    requires Runs(st, a) && Lawful(nst)
    ensures var w := WrittenBlocks(st, nst, a); var c := CorpusOf(st, nst, a);
            && c.spans == Flatten(w.spans) && c.logs == Flatten(w.logs) && |w.spans| == |w.logs| == |w.owners|
            && Owned(w.spans, IdSeq(w.owners), SpanOwner) && Uniform(w.spans, a.shape.spans)
            && Owned(w.logs, IdSeq(w.owners), LogOwner) && Uniform(w.logs, a.shape.logs)
  {
    hide Lawful, BasePhase, NoisePhase, MarksOf, Emitted, Owned, Uniform, AllWellTimed, Sorted, Ids, DistinctIds,
         InCell;
    BaseFacts(st, a);
    var b := BasePhase(st, a);
    var (noise, p) := NoisePhase(nst, a, b.seen);
    NoiseFacts(nst, a, b.seen);
    EmissionOwned(st, b.pos, b.traces, a.shape, MarksOf(b), true, a.hours);
    EmissionOwned(nst, p, noise, a.shape, NO_MARKS, false, a.hours);
    var eb, en := BaseRows(st, a), NoiseRows(st, nst, a);
    var order := MergeFrom(b.traces, 0, noise, 0);
    MergeIndexed(b.traces, 0, noise, 0);
    WovenOwned(order, b.traces, noise, eb.spans, en.spans, SpanOwner, a.shape.spans);
    WovenOwned(order, b.traces, noise, eb.logs, en.logs, LogOwner, a.shape.logs);
  }

  // Block k is its owner's span tree, and its logs are in the owner's hour.
  lemma BlockFacts(st: Stream, nst: Stream, a: Args, k: nat)
    requires Runs(st, a) && Lawful(nst) && k < |WrittenBlocks(st, nst, a).owners|
    ensures var w := WrittenBlocks(st, nst, a);
            && k < |w.spans| && k < |w.logs|
            && |w.spans[k]| == a.shape.spans && SpanTree(w.spans[k], w.owners[k], a.hours)
            && |w.logs[k]| == a.shape.logs && LogsInHour(w.logs[k], w.owners[k], a.hours)
  {
    hide Lawful, BasePhase, NoisePhase, MarksOf, Emitted, AllWellTimed, Sorted, Ids, DistinctIds, InCell, SpanTree,
         LogRow, HourOf;
    BaseFacts(st, a);
    var b := BasePhase(st, a);
    var (noise, p) := NoisePhase(nst, a, b.seen);
    NoiseFacts(nst, a, b.seen);
    MergeIndexed(b.traces, 0, noise, 0);
    match MergeFrom(b.traces, 0, noise, 0)[k] {
      case FromBase(i) =>
        EmittedFacts(st, b.pos, b.traces, i, a.shape, MarksOf(b), true, a.hours);
        LogRowsInHour(BaseRows(st, a).logs[i], b.traces[i], a.hours, RowBase(i, a.shape, true), MarksOf(b));
      case FromNoise(i) =>
        EmittedFacts(nst, p, noise, i, a.shape, NO_MARKS, false, a.hours);
        LogRowsInHour(NoiseRows(st, nst, a).logs[i], noise[i], a.hours, RowBase(i, a.shape, false), NO_MARKS);
    }
  }

  ghost predicate LogsInHour(logs: seq<Log>, tr: Trace, hs: Hours) {
    forall i :: 0 <= i < |logs| ==> logs[i].traceId == tr.id && HourOf(logs[i].ts, hs) == HourOf(tr.start, hs)
  }

  lemma LogRowsInHour(logs: seq<Log>, tr: Trace, hs: Hours, rowBase: int, m: Marks)
    requires LogRows(logs, tr, hs, rowBase, m)
    ensures LogsInHour(logs, tr, hs)
  {
    forall i | 0 <= i < |logs| ensures logs[i].traceId == tr.id && HourOf(logs[i].ts, hs) == HourOf(tr.start, hs) {
      assert LogRow(logs[i], tr, hs, i, rowBase, m);
    }
  }

  // No id is written twice, and the owners are the base and noise traces.
  lemma OwnersDistinct(st: Stream, nst: Stream, a: Args)
    requires Runs(st, a) && Lawful(nst)
    ensures var w := WrittenBlocks(st, nst, a); var c := CorpusOf(st, nst, a);
            && DistinctIds(w.owners) && AllWellTimed(w.owners, a.hours) && Sorted(w.owners, StartsBefore)
            && |w.owners| == a.scale * a.traces
            && multiset(w.owners) == multiset(c.base.traces) + multiset(c.noise)
  {
    hide Lawful, BasePhase, NoisePhase, MarksOf, Emitted, Woven, MergeFrom, InCell, Flatten, Merged;
    BaseFacts(st, a);
    var b := BasePhase(st, a);
    var noise := NoisePhase(nst, a, b.seen).0;
    NoiseFacts(nst, a, b.seen);
    MergedElements(b.traces, 0, noise, 0);
    assert b.traces[0..] == b.traces && noise[0..] == noise;
    MergedSorted(b.traces, 0, noise, 0);
    var all := b.traces + noise;
    assert DistinctIds(all) by {
      assert forall i :: 0 <= i < |b.traces| ==> b.traces[i].id in Ids(b.traces);
      assert forall i :: 0 <= i < |noise| ==> noise[i].id in Ids(noise);
    }
    SameElements(all, Merged(b.traces, 0, noise, 0), a.hours);
    NoiseFits(a);
  }

  // Keeping the base traces' rows of a run at any scale, with any noise stream, gives
  // exactly the files of the scale-1 run; the base phase and the base generator's
  // position after writing are the same too.
  lemma Noninterference(st: Stream, nst: Stream, nst1: Stream, a: Args)
    requires Runs(st, a) && Lawful(nst) && Lawful(nst1)
    ensures Runs(st, a.(scale := 1))
    ensures var c, one := CorpusOf(st, nst, a), CorpusOf(st, nst1, a.(scale := 1));
            && c.base == one.base && c.pos == one.pos
            && Keep(c.spans, SpanOwner, Ids(c.base.traces)) == one.spans
            && Keep(c.logs, LogOwner, Ids(c.base.traces)) == one.logs
  {
    var a1 := a.(scale := 1);
    assert Runs(st, a1);
    assert BasePhase(st, a1) == BasePhase(st, a) && BaseRows(st, a1) == BaseRows(st, a);
    KeptBase(st, nst, a);
    KeptBase(st, nst1, a1);
    AllKept(st, nst1, a1);
  }

  // The kept rows are the base generator's own emission.
  lemma KeptBase(st: Stream, nst: Stream, a: Args)
    requires Runs(st, a) && Lawful(nst)
    ensures var c := CorpusOf(st, nst, a);
            && Keep(c.spans, SpanOwner, Ids(c.base.traces)) == Flatten(BaseRows(st, a).spans)
            && Keep(c.logs, LogOwner, Ids(c.base.traces)) == Flatten(BaseRows(st, a).logs)
            && c.pos == BaseRows(st, a).pos
  {
    hide Lawful, BasePhase, NoisePhase, MarksOf, Emitted, Owned, Uniform, AllWellTimed, Sorted, DistinctIds, InCell;
    BaseFacts(st, a);
    var b := BasePhase(st, a);
    var noise := NoisePhase(nst, a, b.seen).0;
    NoiseFacts(nst, a, b.seen);
    BlocksOwned(st, nst, a);
    var w := WrittenBlocks(st, nst, a);
    var eb, en := BaseRows(st, a), NoiseRows(st, nst, a);
    var keys := Ids(b.traces);
    KeepFlatten(w.spans, IdSeq(w.owners), SpanOwner, keys);
    KeepFlatten(w.logs, IdSeq(w.owners), LogOwner, keys);
    forall j | 0 <= j < |noise| ensures noise[j].id !in keys { assert noise[j].id in Ids(noise); }
    SelectBase(b.traces, 0, noise, 0, eb.spans, en.spans, keys);
    SelectBase(b.traces, 0, noise, 0, eb.logs, en.logs, keys);
    assert eb.spans[0..] == eb.spans && eb.logs[0..] == eb.logs;
  }

  // At scale 1 there is nothing else to keep.
  lemma AllKept(st: Stream, nst: Stream, a: Args)
    requires Runs(st, a) && Lawful(nst) && a.scale == 1
    ensures var c := CorpusOf(st, nst, a);
            && Keep(c.spans, SpanOwner, Ids(c.base.traces)) == c.spans
            && Keep(c.logs, LogOwner, Ids(c.base.traces)) == c.logs
  {
    hide Lawful, BasePhase, BaseRows, NoiseRows, Owned, Uniform, AllWellTimed, Sorted, DistinctIds, WrittenBlocks;
    BlocksOwned(st, nst, a);
    OwnersDistinct(st, nst, a);
    var w, c := WrittenBlocks(st, nst, a), CorpusOf(st, nst, a);
    var keys := Ids(c.base.traces);
    assert c.noise == [];
    OwnersKept(w.owners, c.base.traces);
    KeepFlatten(w.spans, IdSeq(w.owners), SpanOwner, keys);
    KeepFlatten(w.logs, IdSeq(w.owners), LogOwner, keys);
    SelectAll(w.spans, IdSeq(w.owners), keys);
    SelectAll(w.logs, IdSeq(w.owners), keys);
  }

  lemma OwnersKept(owners: seq<Trace>, base: seq<Trace>)
    requires multiset(owners) == multiset(base)
    ensures forall i :: 0 <= i < |owners| ==> owners[i].id in Ids(base)
  {
    forall i | 0 <= i < |owners| ensures owners[i].id in Ids(base) {
      assert owners[i] in multiset(owners);
      assert owners[i] in multiset(base);
      var j :| 0 <= j < |base| && base[j] == owners[i];
    }
  }
}
