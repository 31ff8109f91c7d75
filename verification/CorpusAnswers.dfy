/**
 More of the truth record against a recount: needles, the planted request id, the drawn
 id lists and the journey cut points.
 */
module CorpusAnswers {
  import opened Numbers
  import opened Wrappers
  import opened RandomStream
  import opened Sequences
  import opened Sorting
  import opened CorpusTraces
  import opened CorpusNeedles
  import opened CorpusEmit
  import opened CorpusMerge
  import opened CorpusRun
  import opened CorpusOracle

  // --- needles ---------------------------------------------------------------

  function Code(v: Needle): nat { match v case Rare => 1 case Sparse => 2 case Common => 3 }

  function TagCode(l: Log): nat { if l.tag.None? then 0 else Code(l.tag.value) }

  function PresentCode(l: Log): nat { if l.request.Present? then 1 else 0 }

  function PlannedRows(plan: Plan, v: Needle): seq<nat> {
    match v case Rare => plan.rare case Sparse => plan.sparse case Common => plan.common
  }

  lemma TaggedIsKeyed(logs: seq<Log>, v: Needle)
    ensures TaggedAt(logs, v) == KeyedAt(logs, TagCode, Code(v))
  {
    forall i | 0 <= i < |logs| ensures logs[i].tag == Some(v) <==> TagCode(logs[i]) == Code(v) {
      if logs[i].tag.Some? { CodeInjective(logs[i].tag.value, v); }
    }
  }

  lemma CodeInjective(v: Needle, w: Needle)
    ensures Code(v) == Code(w) <==> v == w
  {
  }

  // The plan of a base phase marks disjoint rows of the corpus.
  lemma PlannedDisjoint(st: Stream, a: Args)
    requires Runs(st, a)
    ensures var plan := BasePhase(st, a).plan;
            && Elements(plan.rare) !! Elements(plan.sparse) !! Elements(plan.common)
            && forall r :: r in plan.rare + plan.sparse + plan.common ==> r < LogRowsOf(a)
  {
    hide Lawful, Drawn, Sort, PlantedIndices, NeedlePlan, SavedAt, PlanEnds, Planted;
    if !a.noiseOnly {
      var (drawn, seen, p) := Drawn(st, 0, a.traces, a.hours, {});
      var q := PlantedIndices(st, p, Sort(drawn, StartsBefore), a.hours).1;
      PlanDisjoint(st, q, LogRowsOf(a));
    }
  }

  lemma PlanDisjoint(st: Stream, p: nat, rows: nat)
    requires Lawful(st) && PlanEnds(st, p, rows)
    ensures var plan := NeedlePlan(st, p, rows).0;
            && Elements(plan.rare) !! Elements(plan.sparse) !! Elements(plan.common)
            && forall r :: r in plan.rare + plan.sparse + plan.common ==> r < rows
  {
    hide Lawful, PlanEnds, BlockCounts;
    if rows < BLOCK_ROWS {
      assert NeedlePlan(st, p, rows).0 == Plan([], [], []);
    } else {
      PlanFacts(st, p, rows);
    }
  }

  lemma TagIsPlanned(b: Base, r: nat, v: Needle)
    requires Elements(b.plan.rare) !! Elements(b.plan.sparse) !! Elements(b.plan.common)
    ensures TagOf(MarksOf(b), r) == Some(v) <==> r in PlannedRows(b.plan, v)
  {
    assert r in b.plan.rare <==> r in Elements(b.plan.rare);
    assert r in b.plan.sparse <==> r in Elements(b.plan.sparse);
    assert r in b.plan.common <==> r in Elements(b.plan.common);
  }

  lemma BaseTags(st: Stream, a: Args, v: Needle)
    requires Runs(st, a)
    ensures TaggedAt(BaseLogs(st, a), v) == Elements(PlannedRows(BasePhase(st, a).plan, v))
  {
    hide Lawful, Runs, BasePhase, BaseLogs, MarksOf;
    var b, logs := BasePhase(st, a), BaseLogs(st, a);
    PlannedDisjoint(st, a);
    forall r: nat ensures r in TaggedAt(logs, v) <==> r in Elements(PlannedRows(b.plan, v)) {
      BaseLogsLength(st, a);
      TagIsPlanned(b, r, v);
      if r < |logs| {
        BaseRowMarks(st, a, r);
      } else {
        assert r in PlannedRows(b.plan, v) ==> r in b.plan.rare + b.plan.sparse + b.plan.common;
      }
    }
  }

  lemma BaseLogsLength(st: Stream, a: Args)
    requires Runs(st, a)
    ensures |BaseLogs(st, a)| == LogRowsOf(a)
  {
    hide Lawful, Runs, BaseRows, Flatten;
    BaseRowsUniform(st, a);
    UniformLength(BaseRows(st, a).logs, a.shape.logs);
  }

  // Keeping marked rows of the file is keeping them of the base rows.
  lemma MarkedKept(st: Stream, nst: Stream, a: Args, key: Log -> nat, k: nat)
    requires Runs(st, a) && Lawful(nst)
    requires forall l :: Unmarked(l) ==> key(l) != k
    ensures Keep(CorpusOf(st, nst, a).logs, key, {k}) == Keep(BaseLogs(st, a), key, {k})
  {
    hide Lawful, Runs, BasePhase, BaseRows, NoiseRows, NoisePhase, Flatten, Woven, MergeFrom, Ids, Keep, Unmarked;
    var c := CorpusOf(st, nst, a);
    var ids := Ids(c.base.traces);
    KeptBase(st, nst, a);
    forall i | 0 <= i < |c.logs| && key(c.logs[i]) in {k} ensures LogOwner(c.logs[i]) in ids {
      NoiseUnmarked(st, nst, a, i);
    }
    KeepKeep(c.logs, LogOwner, ids, key, {k});
  }

  // needle.<v>: the file holds exactly as many rows tagged v as were planned for v.
  lemma NeedleExact(st: Stream, nst: Stream, a: Args, v: Needle)
    requires Runs(st, a) && Lawful(nst)
    ensures |TaggedAt(CorpusOf(st, nst, a).logs, v)| == |Elements(PlannedRows(BasePhase(st, a).plan, v))|
  {
    hide Lawful, Runs, CorpusOf, BasePhase, BaseLogs, Keep, KeyedAt, TaggedAt;
    var logs := CorpusOf(st, nst, a).logs;
    TaggedIsKeyed(logs, v);
    KeyedCount(logs, TagCode, Code(v));
    MarkedKept(st, nst, a, TagCode, Code(v));
    KeyedCount(BaseLogs(st, a), TagCode, Code(v));
    TaggedIsKeyed(BaseLogs(st, a), v);
    BaseTags(st, a, v);
  }

  ghost predicate PresentRecorded(hits: seq<Log>, b: Base, perTrace: nat) {
    && |hits| == 1 && perTrace > 0 && 0 <= b.presentRow && b.presentRow / perTrace < |b.traces|
    && hits[0].traceId == b.traces[b.presentRow / perTrace].id
  }

  // request_id.present: exactly one row of the file carries the planted request id, and
  // it belongs to the recorded trace. A noise-only file has none.
  lemma PresentExact(st: Stream, nst: Stream, a: Args)
    requires Runs(st, a) && Lawful(nst)
    ensures var hits := Keep(CorpusOf(st, nst, a).logs, PresentCode, {1});
            if a.noiseOnly then hits == [] else PresentRecorded(hits, BasePhase(st, a), a.shape.logs)
  {
    hide Lawful, Runs, BasePhase, BaseRows, NoiseRows, NoisePhase, Flatten, Woven, MergeFrom, BaseLogs, Keep, MarksOf,
         Sorted, DistinctIds, Ids, AllWellTimed;
    MarkedKept(st, nst, a, PresentCode, 1);
    var b, logs := BasePhase(st, a), BaseLogs(st, a);
    BaseFacts(st, a);
    BaseLogsLength(st, a);
    forall i | 0 <= i < |logs| ensures PresentCode(logs[i]) == 1 <==> i == b.presentRow { BaseRowMarks(st, a, i); }
    if a.noiseOnly {
      KeepNone(logs, PresentCode, 1);
    } else {
      KeepOnly(logs, PresentCode, 1, b.presentRow);
      BaseRowMarks(st, a, b.presentRow);
    }
  }

  // --- the drawn id lists ----------------------------------------------------

  // The lists of distinct indices drawn after writing, one per size, capped at n.
  function DrawnLists(st: Stream, p: nat, n: nat, sizes: seq<nat>): (r: (seq<seq<nat>>, nat))
    ensures |r.0| == |sizes|
  {
    if sizes == [] then ([], p)
    else
      var k := |sizes| - 1;
      var (lists, q) := DrawnLists(st, p, n, sizes[..k]);
      var (list, q') := st.sample(q, n, Min(sizes[k], n));
      (lists + [list], q')
  }

  lemma {:induction false} DrawnListsFacts(st: Stream, p: nat, n: nat, sizes: seq<nat>, k: nat)
    requires Lawful(st) && k < |sizes|
    ensures SampleOf(DrawnLists(st, p, n, sizes).0[k], n, Min(sizes[k], n))
  {
    var last := |sizes| - 1;
    if k < last {
      DrawnListsFacts(st, p, n, sizes[..last], k);
    } else {
      var q := DrawnLists(st, p, n, sizes[..last]).1;
      assert SampleOf(st.sample(q, n, Min(sizes[k], n)).0, n, Min(sizes[k], n));
    }
  }

  // The pool of log rows other than the planted one, indexed without building it.
  function PoolSize(rows: nat, present: int): nat
    requires rows > 0
  {
    if 0 <= present < rows then rows - 1 else rows
  }

  function PoolRow(j: nat, present: int): nat {
    if present < 0 || j < present then j else j + 1
  }

  // The indexing enumerates every row but the planted one, each once, in order.
  lemma PoolEnumerates(rows: nat, present: int)
    requires rows > 0 && -1 <= present < rows
    ensures forall i: nat, j: nat :: i < j ==> PoolRow(i, present) < PoolRow(j, present)
    ensures forall r: nat :: Pooled(r, rows, present) <==> r < rows && r != present
  {
    forall r: nat | r < rows && r != present ensures Pooled(r, rows, present) {
      var j := if present < 0 || r < present then r else r - 1;
      assert PoolRow(j, present) == r;
    }
  }

  ghost predicate Pooled(r: nat, rows: nat, present: int)
    requires rows > 0
  {
    exists j: nat :: j < PoolSize(rows, present) && PoolRow(j, present) == r
  }

  // Everything drawn after writing: the two families of lists and one more key outside
  // each longest list, when there is one.
  datatype Drawings = Drawings(traceLists: seq<seq<nat>>, rowLists: seq<seq<nat>>,
                               extraTrace: Option<nat>, extraRow: Option<nat>, pos: nat)

  function ExtraOutside(st: Stream, p: nat, n: nat, list: seq<nat>): (Option<nat>, nat)
    requires Lawful(st) && SampleOf(list, n, |list|)
  {
    if |list| < n then
      ExtraReached(st, p, n, list);
      var (i, q) := Outside(st, Range(0, n), p, Elements(list));
      (Some(i), q)
    else (None, p)
  }

  lemma ExtraReached(st: Stream, p: nat, n: nat, list: seq<nat>)
    requires Lawful(st) && SampleOf(list, n, |list|) && |list| < n
    ensures Reaches(st, Range(0, n), p, Elements(list))
  {
    DistinctCount(list);
    var v := Spare(n, Elements(list));
    LawfulReaches(st, Range(0, n), p, Elements(list), v);
  }

  function DrawingsOf(st: Stream, p: nat, traces: nat, pool: nat): Drawings
    requires Lawful(st)
  {
    var (ts, p1) := DrawnLists(st, p, traces, IN_SIZES);
    var (rs, p2) := DrawnLists(st, p1, pool, IN_SIZES);
    DrawnListsFacts(st, p, traces, IN_SIZES, 3);
    DrawnListsFacts(st, p1, pool, IN_SIZES, 3);
    var (t, p3) := ExtraOutside(st, p2, traces, ts[3]);
    var (r, p4) := ExtraOutside(st, p3, pool, rs[3]);
    Drawings(ts, rs, t, r, p4)
  }

  method DrawLists(rng: Random, n: nat) returns (lists: seq<seq<nat>>)
    modifies rng
    ensures (lists, rng.pos) == DrawnLists(rng.stream, old(rng.pos), n, IN_SIZES)
  {
    lists := [];
    for k := 0 to |IN_SIZES|
      invariant (lists, rng.pos) == DrawnLists(rng.stream, old(rng.pos), n, IN_SIZES[..k])
    {
      assert IN_SIZES[..k + 1][..k] == IN_SIZES[..k];
      var list := rng.Sample(n, Min(IN_SIZES[k], n));
      lists := lists + [list];
    }
    assert IN_SIZES[..|IN_SIZES|] == IN_SIZES;
  }

  method DrawExtra(rng: Random, n: nat, list: seq<nat>) returns (extra: Option<nat>)
    requires Lawful(rng.stream) && SampleOf(list, n, |list|)
    modifies rng
    ensures (extra, rng.pos) == ExtraOutside(rng.stream, old(rng.pos), n, list)
  {
    extra := None;
    if |list| < n {
      ExtraReached(rng.stream, rng.pos, n, list);
      var i := rng.DrawOutside(Range(0, n), Elements(list));
      extra := Some(i);
    }
  }

  method DrawKeys(rng: Random, traces: nat, pool: nat) returns (d: Drawings)
    requires Lawful(rng.stream)
    modifies rng
    ensures d == DrawingsOf(rng.stream, old(rng.pos), traces, pool) && rng.pos == d.pos
  {
    hide Lawful, SampleOf, DrawnLists, ExtraOutside;
    ghost var p := rng.pos;
    var ts := DrawLists(rng, traces);
    DrawnListsFacts(rng.stream, p, traces, IN_SIZES, 3);
    p := rng.pos;
    var rs := DrawLists(rng, pool);
    DrawnListsFacts(rng.stream, p, pool, IN_SIZES, 3);
    SampleLength(ts[3], traces, Min(IN_SIZES[3], traces));
    SampleLength(rs[3], pool, Min(IN_SIZES[3], pool));
    var t := DrawExtra(rng, traces, ts[3]);
    var r := DrawExtra(rng, pool, rs[3]);
    d := Drawings(ts, rs, t, r, rng.pos);
  }

  lemma SampleLength(s: seq<nat>, n: nat, k: nat)
    requires SampleOf(s, n, k)
    ensures |s| == k
  {
  }

  // Every draw after writing is the same at every scale.
  lemma DrawingsSame(st: Stream, nst: Stream, nst1: Stream, a: Args)
    requires Runs(st, a) && Lawful(nst) && Lawful(nst1)
    ensures Runs(st, a.(scale := 1))
    ensures var c, one := CorpusOf(st, nst, a), CorpusOf(st, nst1, a.(scale := 1));
            LogRowsOf(a) > 0 && LogRowsOf(a.(scale := 1)) > 0
            && DrawingsOf(st, c.pos, a.traces, PoolSize(LogRowsOf(a), c.base.presentRow))
               == DrawingsOf(st, one.pos, a.traces, PoolSize(LogRowsOf(a.(scale := 1)), one.base.presentRow))
  {
    hide DrawingsOf, CorpusOf, Lawful;
    Noninterference(st, nst, nst1, a);
    RowsPositive(a);
  }

  lemma RowsPositive(a: Args)
    requires ValidArgs(a)
    ensures LogRowsOf(a) > 0
  {
  }

  // in_trace_id.<size>: the file holds the recorded number of rows for each drawn list,
  // and the extra key is outside the longest list.
  lemma TraceListsExact(st: Stream, nst: Stream, a: Args, pool: nat, k: nat)
    requires Runs(st, a) && Lawful(nst) && k < |IN_SIZES|
    ensures var c := CorpusOf(st, nst, a); var d := DrawingsOf(st, c.pos, a.traces, pool);
            var got := Min(IN_SIZES[k], a.traces); var ids := IdsAt(c.base.traces, d.traceLists[k]);
            && |ids| == got
            && |Keep(c.spans, SpanOwner, ids)| == got * a.shape.spans
            && |Keep(c.logs, LogOwner, ids)| == got * a.shape.logs
            && (d.extraTrace.Some? <==> IN_SIZES[3] < a.traces)
            && (d.extraTrace.Some? ==> d.extraTrace.value < a.traces && d.extraTrace.value !in d.traceLists[3])
  {
    hide Lawful, BasePhase, BaseRows, NoiseRows, NoisePhase, Flatten, Woven, MergeFrom, Sorted, AllWellTimed,
         DrawnLists, WrittenBlocks, Keep, ValidArgs;
    var c := CorpusOf(st, nst, a);
    DrawnListsFacts(st, c.pos, a.traces, IN_SIZES, k);
    DrawnListsFacts(st, c.pos, a.traces, IN_SIZES, 3);
    var list := DrawnLists(st, c.pos, a.traces, IN_SIZES).0[k];
    BaseFacts(st, a);
    IdsAtCount(c.base.traces, list);
    BaseIdsWritten(st, nst, a);
    RowsOfTraces(st, nst, a, IdsAt(c.base.traces, list));
    InRangeZero(a.traces);
  }

  // A list and the extra key, when there is one.
  function WithExtra(list: seq<nat>, extra: Option<nat>): seq<nat> {
    if extra.Some? then list + [extra.value] else list
  }

  lemma ControlSample(st: Stream, p: nat, n: nat, list: seq<nat>)
    requires Lawful(st) && SampleOf(list, n, |list|)
    ensures var control := WithExtra(list, ExtraOutside(st, p, n, list).0);
            SampleOf(control, n, |control|) && |control| == |list| + if |list| < n then 1 else 0
  {
    hide Lawful, Outside;
    InRangeZero(n);
  }

  // in_trace_id.1001: the longest list and the extra key, when there is one, have the
  // recorded rows.
  lemma TraceControlExact(st: Stream, nst: Stream, a: Args, pool: nat)
    requires Runs(st, a) && Lawful(nst)
    ensures var c := CorpusOf(st, nst, a); var d := DrawingsOf(st, c.pos, a.traces, pool);
            var got := |d.traceLists[3]| + if d.extraTrace.Some? then 1 else 0;
            var ids := IdsAt(c.base.traces, WithExtra(d.traceLists[3], d.extraTrace));
            && got == Min(IN_SIZES[3] + 1, a.traces) && |ids| == got
            && |Keep(c.spans, SpanOwner, ids)| == got * a.shape.spans
            && |Keep(c.logs, LogOwner, ids)| == got * a.shape.logs
  {
    hide Lawful, BasePhase, BaseRows, NoiseRows, NoisePhase, Flatten, Woven, MergeFrom, Sorted, AllWellTimed,
         DrawnLists, WrittenBlocks, Keep, ValidArgs, Outside;
    var c := CorpusOf(st, nst, a);
    DrawnListsFacts(st, c.pos, a.traces, IN_SIZES, 3);
    var d := DrawingsOf(st, c.pos, a.traces, pool);
    var p := DrawnLists(st, c.pos, a.traces, IN_SIZES).1;
    ControlSample(st, DrawnLists(st, p, pool, IN_SIZES).1, a.traces, d.traceLists[3]);
    var control := WithExtra(d.traceLists[3], d.extraTrace);
    BaseFacts(st, a);
    IdsAtCount(c.base.traces, control);
    BaseIdsWritten(st, nst, a);
    RowsOfTraces(st, nst, a, IdsAt(c.base.traces, control));
  }

  lemma InRangeZero(n: nat)
    ensures n > 0 ==> Inhabited(Range(0, n))
  {
    if n > 0 { assert InSpace(Range(0, n), 0); }
  }

  function IdsAt(ts: seq<Trace>, at: seq<nat>): set<nat> {
    set i | 0 <= i < |at| && at[i] < |ts| :: ts[at[i]].id
  }

  lemma {:induction false} IdsAtCount(ts: seq<Trace>, at: seq<nat>)
    requires DistinctIds(ts) && SampleOf(at, |ts|, |at|)
    ensures |IdsAt(ts, at)| == |at| && IdsAt(ts, at) <= Ids(ts)
  {
    if at != [] {
      var n := |at| - 1;
      IdsAtCount(ts, at[..n]);
      assert IdsAt(ts, at) == IdsAt(ts, at[..n]) + {ts[at[n]].id};
      forall i | 0 <= i < n ensures ts[at[i]].id != ts[at[n]].id {
        assert at[i] != at[n];
        assert at[i] < at[n] || at[n] < at[i];
      }
    }
  }
}
