/**
 The truth record: each answer the generator records equals a recount of the rows it
 wrote.
 */
module CorpusOracle {
  import opened Numbers
  import opened RandomStream
  import opened Sequences
  import opened Sorting
  import opened CorpusTraces
  import opened CorpusNeedles
  import opened CorpusEmit
  import opened CorpusMerge
  import opened CorpusRun
  import opened CorpusHours

  // --- root spans ------------------------------------------------------------

  // The root span of a trace.
  predicate RootFor(s: Span, t: Trace) {
    && s.parent.None? && s.traceId == t.id && s.start == t.start && s.service == t.service
    && s.status == if t.error then Error else Fine
  }

  lemma RootWritten(st: Stream, nst: Stream, a: Args, i: nat) returns (r: nat)
    requires Runs(st, a) && Lawful(nst) && i < |WrittenBlocks(st, nst, a).owners|
    ensures r < |CorpusOf(st, nst, a).spans|
    ensures RootFor(CorpusOf(st, nst, a).spans[r], WrittenBlocks(st, nst, a).owners[i])
  {
    hide Lawful, Runs, CorpusOf, WrittenBlocks, Owned, HourOf, ValidArgs, Flatten;
    var w := WrittenBlocks(st, nst, a);
    SizesPositive(st, a);
    BlocksOwned(st, nst, a);
    BlockFacts(st, nst, a, i);
    UniformIndex(w.spans, a.shape.spans, i, 0);
    r := i * a.shape.spans + 0;
    assert SpanRow(w.spans[i][0], w.owners[i], a.hours);
  }

  lemma RootOwner(st: Stream, nst: Stream, a: Args, r: nat) returns (i: nat)
    requires Runs(st, a) && Lawful(nst)
    requires r < |CorpusOf(st, nst, a).spans| && CorpusOf(st, nst, a).spans[r].parent.None?
    ensures i < |WrittenBlocks(st, nst, a).owners|
    ensures RootFor(CorpusOf(st, nst, a).spans[r], WrittenBlocks(st, nst, a).owners[i])
  {
    hide Lawful, Runs, CorpusOf, WrittenBlocks, Owned, HourOf, ValidArgs, Flatten, Uniform;
    var w := WrittenBlocks(st, nst, a);
    SizesPositive(st, a);
    BlocksOwned(st, nst, a);
    RowPlace(w.spans, a.shape.spans, r);
    i := r / a.shape.spans;
    BlockFacts(st, nst, a, i);
    assert SpanRow(w.spans[i][r % a.shape.spans], w.owners[i], a.hours);
  }

  // --- the failing cell ------------------------------------------------------

  // An error root span of the failing service in the failing hour.
  predicate FailingRoot(s: Span, hs: Hours) {
    && s.parent.None? && s.status.Error? && s.service == FAILING_SERVICE
    && HourOf(s.start, hs) == FailingHour(hs)
  }

  // The trace ids a scan of the spans file finds in the failing cell.
  function FailingIn(spans: seq<Span>, hs: Hours): set<nat> {
    set k | 0 <= k < |spans| && FailingRoot(spans[k], hs) :: spans[k].traceId
  }

  function CellIds(ts: seq<Trace>, hs: Hours): set<nat> {
    set i | 0 <= i < |ts| && InCell(ts[i], hs) :: ts[i].id
  }

  // The scan finds the base traces in the cell and nothing of the noise.
  lemma CellScan(st: Stream, nst: Stream, a: Args)
    requires Runs(st, a) && Lawful(nst)
    ensures FailingIn(CorpusOf(st, nst, a).spans, a.hours) == CellIds(CorpusOf(st, nst, a).base.traces, a.hours)
  {
    hide CorpusOf, Lawful, Runs, FailingRoot, InCell;
    var c := CorpusOf(st, nst, a);
    forall id | id in FailingIn(c.spans, a.hours) ensures id in CellIds(c.base.traces, a.hours) {
      var k :| 0 <= k < |c.spans| && FailingRoot(c.spans[k], a.hours) && c.spans[k].traceId == id;
      FoundIsBase(st, nst, a, k);
    }
    forall id | id in CellIds(c.base.traces, a.hours) ensures id in FailingIn(c.spans, a.hours) {
      var i :| 0 <= i < |c.base.traces| && InCell(c.base.traces[i], a.hours) && c.base.traces[i].id == id;
      BaseIsFound(st, nst, a, i);
    }
  }

  lemma FoundIsBase(st: Stream, nst: Stream, a: Args, k: nat)
    requires Runs(st, a) && Lawful(nst)
    requires k < |CorpusOf(st, nst, a).spans| && FailingRoot(CorpusOf(st, nst, a).spans[k], a.hours)
    ensures CorpusOf(st, nst, a).spans[k].traceId in CellIds(CorpusOf(st, nst, a).base.traces, a.hours)
  {
    hide Lawful, WrittenBlocks, HourOf, ValidArgs, Sorted, AllWellTimed, DistinctIds, BaseRows, NoiseRows, NoisePhase,
         BasePhase, Flatten, Woven, MergeFrom, Ids;
    var c := CorpusOf(st, nst, a);
    var i := RootOwner(st, nst, a, k);
    var t := WrittenBlocks(st, nst, a).owners[i];
    assert InCell(t, a.hours);
    OwnersDistinct(st, nst, a);
    BaseFacts(st, a);
    NoiseFacts(nst, a, c.base.seen);
    assert t in multiset(WrittenBlocks(st, nst, a).owners);
    assert t in c.base.traces || t in c.noise;
  }

  lemma BaseIsFound(st: Stream, nst: Stream, a: Args, i: nat)
    requires Runs(st, a) && Lawful(nst)
    requires i < |CorpusOf(st, nst, a).base.traces| && InCell(CorpusOf(st, nst, a).base.traces[i], a.hours)
    ensures CorpusOf(st, nst, a).base.traces[i].id in FailingIn(CorpusOf(st, nst, a).spans, a.hours)
  {
    hide Lawful, Runs, WrittenBlocks, HourOf, ValidArgs, Sorted, AllWellTimed, DistinctIds, CorpusOf, Ids;
    var c := CorpusOf(st, nst, a);
    var owners := WrittenBlocks(st, nst, a).owners;
    var t := c.base.traces[i];
    OwnersDistinct(st, nst, a);
    assert t in multiset(c.base.traces) && t in multiset(owners) && t in owners;
    var j :| 0 <= j < |owners| && owners[j] == t;
    var r := RootWritten(st, nst, a, j);
    assert FailingRoot(c.spans[r], a.hours);
  }

  // The recorded failing trace ids.
  function RecordedFailing(b: Base): set<nat> {
    set i | 0 <= i < |b.traces| && i in b.planted :: b.traces[i].id
  }

  lemma {:induction false} PlantedCount(b: Base, planted: seq<nat>)
    requires DistinctIds(b.traces) && Distinct(planted) && forall i :: i in planted ==> i < |b.traces|
    ensures |set i | 0 <= i < |b.traces| && i in planted :: b.traces[i].id| == |planted|
  {
    if planted != [] {
      var n := |planted| - 1;
      assert forall i :: i in planted[..n] ==> i in planted;
      PlantedCount(b, planted[..n]);
      var last := planted[n];
      assert last in planted && last !in planted[..n];
      var rest := set i | 0 <= i < |b.traces| && i in planted[..n] :: b.traces[i].id;
      assert planted == planted[..n] + [last];
      assert (set i | 0 <= i < |b.traces| && i in planted :: b.traces[i].id) == rest + {b.traces[last].id};
    }
  }

  // What planting leaves in a base phase.
  lemma BasePlanted(st: Stream, a: Args)
    requires Runs(st, a) && !a.noiseOnly
    ensures var b := BasePhase(st, a);
            && Distinct(b.planted) && (forall i :: i in b.planted ==> i < |b.traces|)
            && (forall i :: 0 <= i < |b.traces| ==> (InCell(b.traces[i], a.hours) <==> i in b.planted))
            && |b.planted| == Min(FAILING_CELL_TRACES, |InHour(b.traces, a.hours)|)
  {
    hide Lawful, Drawn, Sort, PlantedIndices, PlanEnds, NeedlePlan, SavedAt, InHour, HourOf, Distinct;
    var (drawn, seen, p) := Drawn(st, 0, a.traces, a.hours, {});
    var ts := Sort(drawn, StartsBefore);
    PlantedIndicesFacts(st, p, ts, a.hours);
    CellIsPlanted(ts, PlantedIndices(st, p, ts, a.hours).0, a.hours);
    InHourSameTimes(ts, BasePhase(st, a).traces, a.hours);
  }

  lemma {:induction false} InHourSameTimes(s: seq<Trace>, t: seq<Trace>, hs: Hours)
    requires SameTimes(s, t)
    ensures InHour(s, hs) == InHour(t, hs)
  {
    if s != [] { InHourSameTimes(s[..|s| - 1], t[..|t| - 1], hs); }
  }

  // How many spans and logs the file holds for a set of written traces.
  lemma RowsOfTraces(st: Stream, nst: Stream, a: Args, ids: set<nat>)
    requires Runs(st, a) && Lawful(nst) && ids <= Ids(WrittenBlocks(st, nst, a).owners)
    ensures |Keep(CorpusOf(st, nst, a).spans, SpanOwner, ids)| == |ids| * a.shape.spans
    ensures |Keep(CorpusOf(st, nst, a).logs, LogOwner, ids)| == |ids| * a.shape.logs
  {
    hide Lawful, Runs, CorpusOf, WrittenBlocks, Sorted, AllWellTimed;
    var w := WrittenBlocks(st, nst, a);
    BlocksOwned(st, nst, a);
    OwnersDistinct(st, nst, a);
    var owners := IdSeq(w.owners);
    forall id | id in ids ensures id in owners {
      assert id in Ids(w.owners);
      var i :| 0 <= i < |w.owners| && w.owners[i].id == id;
      assert owners[i] == id;
    }
    KeepCount(w.spans, owners, SpanOwner, ids, a.shape.spans);
    KeepCount(w.logs, owners, LogOwner, ids, a.shape.logs);
  }

  lemma BaseIdsWritten(st: Stream, nst: Stream, a: Args)
    requires Runs(st, a) && Lawful(nst)
    ensures Ids(BasePhase(st, a).traces) <= Ids(WrittenBlocks(st, nst, a).owners)
  {
    hide Lawful, Runs, WrittenBlocks, BasePhase, BaseRows, NoiseRows, NoisePhase, Sorted, AllWellTimed, DistinctIds,
         Flatten, Woven, MergeFrom;
    OwnersDistinct(st, nst, a);
    var ts, owners := BasePhase(st, a).traces, WrittenBlocks(st, nst, a).owners;
    forall i | 0 <= i < |ts| ensures ts[i].id in Ids(owners) {
      assert ts[i] in multiset(ts) && ts[i] in multiset(owners) && ts[i] in owners;
      var j :| 0 <= j < |owners| && owners[j] == ts[i];
    }
  }

  // failing_cell: the ids a scan finds are exactly the planted ones, as many as asked for
  // or as the hour holds, and their logs number what is recorded.
  lemma FailingCellExact(st: Stream, nst: Stream, a: Args)
    requires Runs(st, a) && Lawful(nst) && !a.noiseOnly
    ensures var c := CorpusOf(st, nst, a); var recorded := RecordedFailing(c.base);
            && FailingIn(c.spans, a.hours) == recorded
            && |recorded| == |c.base.planted| == Min(FAILING_CELL_TRACES, |InHour(c.base.traces, a.hours)|)
            && |Keep(c.logs, LogOwner, recorded)| == |recorded| * a.shape.logs
  {
    hide Lawful, Runs, BasePhase, BaseRows, NoiseRows, NoisePhase, Flatten, Woven, MergeFrom, Sorted, AllWellTimed,
         InHour, InCell, Distinct, WrittenBlocks, FailingIn;
    CellScan(st, nst, a);
    BasePlanted(st, a);
    BaseFacts(st, a);
    var b := BasePhase(st, a);
    PlantedCount(b, b.planted);
    var recorded := RecordedFailing(b);
    assert recorded <= Ids(b.traces);
    assert recorded == CellIds(b.traces, a.hours);
    BaseIdsWritten(st, nst, a);
    RowsOfTraces(st, nst, a, recorded);
  }

  // A noise-only run records an empty failing cell but does not clear it: the scan finds
  // whatever was drawn into the cell.
  lemma NoiseOnlyCell(st: Stream, nst: Stream, a: Args)
    requires Runs(st, a) && Lawful(nst) && a.noiseOnly
    ensures var c := CorpusOf(st, nst, a);
            && RecordedFailing(c.base) == {}
            && (FailingIn(c.spans, a.hours) == RecordedFailing(c.base)
                <==> forall i :: 0 <= i < |c.base.traces| ==> !InCell(c.base.traces[i], a.hours))
  {
    hide Lawful, Runs, BaseRows, NoiseRows, NoisePhase, Flatten, Woven, MergeFrom, InCell, FailingIn, Drawn, Sort;
    CellScan(st, nst, a);
    var b := BasePhase(st, a);
    assert b.planted == [];
    assert forall i :: 0 <= i < |b.traces| && InCell(b.traces[i], a.hours) ==>
                         b.traces[i].id in CellIds(b.traces, a.hours);
  }

  // --- needles and the planted request id ------------------------------------

  // Base row r of the logs, before noise is interleaved.
  function BaseLogs(st: Stream, a: Args): seq<Log>
    requires Runs(st, a)
  {
    Flatten(BaseRows(st, a).logs)
  }

  ghost predicate MarkedAs(logs: seq<Log>, b: Base, perTrace: nat, r: nat) {
    && perTrace > 0 && r < |logs| && r / perTrace < |b.traces|
    && logs[r].traceId == b.traces[r / perTrace].id
    && logs[r].tag == TagOf(MarksOf(b), r)
    && (logs[r].request.Present? <==> b.presentRow == r)
  }

  // Base row r carries the marks planned for row r, in the trace that owns the row.
  lemma BaseRowMarks(st: Stream, a: Args, r: nat)
    requires Runs(st, a) && r < LogRowsOf(a)
    ensures |BaseLogs(st, a)| == LogRowsOf(a) && MarkedAs(BaseLogs(st, a), BasePhase(st, a), a.shape.logs, r)
  {
    hide Lawful, BasePhase, MarksOf, Emitted, AllWellTimed, Sorted, Ids, DistinctIds, SpanTree, HourOf, Flatten, Runs;
    SizesPositive(st, a);
    BaseFacts(st, a);
    var b := BasePhase(st, a);
    BaseRowsUniform(st, a);
    var blocks := BaseRows(st, a).logs;
    UniformLength(blocks, a.shape.logs);
    RowPlace(blocks, a.shape.logs, r);
    var k, l := r / a.shape.logs, r % a.shape.logs;
    Quotient(r, a.shape.logs);
    BaseBlock(st, a, k);
    assert LogRow(blocks[k][l], b.traces[k], a.hours, l, RowBase(k, a.shape, true), MarksOf(b));
    assert RowBase(k, a.shape, true) + l == r;
    PresentMark(b, r, b.traces[k].id, l);
  }

  lemma PresentMark(b: Base, r: int, id: nat, l: nat)
    ensures RequestOf(MarksOf(b), r, id, l).Present? <==> b.presentRow == r
  {
  }

  lemma BaseBlock(st: Stream, a: Args, k: nat)
    requires Runs(st, a) && k < |BasePhase(st, a).traces|
    ensures var b := BasePhase(st, a); var blocks := BaseRows(st, a).logs;
            k < |blocks| && LogRows(blocks[k], b.traces[k], a.hours, RowBase(k, a.shape, true), MarksOf(b))
  {
    hide Lawful, BasePhase, MarksOf, Emitted, AllWellTimed, Sorted, Ids, DistinctIds, SpanTree, LogRows;
    BaseFacts(st, a);
    var b := BasePhase(st, a);
    EmittedFacts(st, b.pos, b.traces, k, a.shape, MarksOf(b), true, a.hours);
  }

  lemma BaseRowsUniform(st: Stream, a: Args)
    requires Runs(st, a)
    ensures |BaseRows(st, a).logs| == a.traces && Uniform(BaseRows(st, a).logs, a.shape.logs)
  {
    hide Lawful, BasePhase, MarksOf, Emitted, AllWellTimed, Sorted, Ids, DistinctIds;
    BaseFacts(st, a);
    var b := BasePhase(st, a);
    EmissionOwned(st, b.pos, b.traces, a.shape, MarksOf(b), true, a.hours);
  }

  // No noise row carries a mark.
  predicate Unmarked(l: Log) { l.tag.None? && !l.request.Present? }

  lemma NoiseBlockUnmarked(st: Stream, nst: Stream, a: Args, k: nat, l: nat)
    requires Runs(st, a) && Lawful(nst)
    requires var w := WrittenBlocks(st, nst, a); k < |w.owners| && k < |w.logs| && l < |w.logs[k]|
    ensures var w := WrittenBlocks(st, nst, a);
            w.owners[k].id in Ids(BasePhase(st, a).traces) || Unmarked(w.logs[k][l])
  {
    hide Lawful, BasePhase, NoisePhase, MarksOf, Emitted, AllWellTimed, Sorted, DistinctIds, SpanTree, HourOf, InCell;
    BaseFacts(st, a);
    var b := BasePhase(st, a);
    var (noise, p) := NoisePhase(nst, a, b.seen);
    NoiseFacts(nst, a, b.seen);
    var w := WrittenBlocks(st, nst, a);
    MergeIndexed(b.traces, 0, noise, 0);
    match MergeFrom(b.traces, 0, noise, 0)[k] {
      case FromBase(i) =>
        assert w.owners[k] == b.traces[i];
      case FromNoise(i) =>
        EmittedFacts(nst, p, noise, i, a.shape, NO_MARKS, false, a.hours);
        assert LogRow(w.logs[k][l], noise[i], a.hours, l, RowBase(i, a.shape, false), NO_MARKS);
    }
  }

  lemma NoiseUnmarked(st: Stream, nst: Stream, a: Args, r: nat)
    requires Runs(st, a) && Lawful(nst) && r < |CorpusOf(st, nst, a).logs|
    ensures var log := CorpusOf(st, nst, a).logs[r]; LogOwner(log) in Ids(BasePhase(st, a).traces) || Unmarked(log)
  {
    hide Lawful, Runs, WrittenBlocks, CorpusOf, BasePhase, AllWellTimed, Sorted, DistinctIds, SpanTree, HourOf,
         Flatten, Uniform, Owned, Ids;
    var w := WrittenBlocks(st, nst, a);
    SizesPositive(st, a);
    BlocksOwned(st, nst, a);
    RowPlace(w.logs, a.shape.logs, r);
    var k, l := r / a.shape.logs, r % a.shape.logs;
    BlockFacts(st, nst, a, k);
    NoiseBlockUnmarked(st, nst, a, k, l);
  }
}
