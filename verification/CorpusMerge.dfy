/**
 Writing the corpus: base and noise traces interleaved by start, each emitted from its
 own generator. The base generator never sees the noise, so the base rows are the same
 rows at every scale.
 */
module CorpusMerge {
  import opened Wrappers
  import opened RandomStream
  import opened Sequences
  import opened Sorting
  import opened CorpusTraces
  import opened CorpusEmit

  // --- the interleaving ------------------------------------------------------

  datatype Step = FromBase(i: nat) | FromNoise(i: nat)

  predicate TakesBase(base: seq<Trace>, bi: nat, noise: seq<Trace>, ni: nat)
    requires bi <= |base| && ni <= |noise|
  {
    ni >= |noise| || (bi < |base| && StartsBefore(base[bi], noise[ni]))
  }

  // The order in which the remaining traces are written.
  function MergeFrom(base: seq<Trace>, bi: nat, noise: seq<Trace>, ni: nat): (r: seq<Step>)
    requires bi <= |base| && ni <= |noise|
    ensures |r| == |base| - bi + |noise| - ni
    decreases |base| - bi + |noise| - ni
  {
    if bi == |base| && ni == |noise| then []
    else if TakesBase(base, bi, noise, ni) then [FromBase(bi)] + MergeFrom(base, bi + 1, noise, ni)
    else [FromNoise(ni)] + MergeFrom(base, bi, noise, ni + 1)
  }

  predicate Valid(s: Step, b: nat, n: nat) {
    match s case FromBase(i) => i < b case FromNoise(i) => i < n
  }

  ghost predicate Indexed(order: seq<Step>, b: nat, n: nat) {
    forall k :: 0 <= k < |order| ==> Valid(order[k], b, n)
  }

  function Taken<T>(s: Step, b: seq<T>, n: seq<T>): T
    requires Valid(s, |b|, |n|)
  {
    match s case FromBase(i) => b[i] case FromNoise(i) => n[i]
  }

  // The elements of b and n in the order of the steps.
  function Woven<T>(order: seq<Step>, b: seq<T>, n: seq<T>): (r: seq<T>)
    requires Indexed(order, |b|, |n|)
    ensures |r| == |order| && forall k :: 0 <= k < |order| ==> r[k] == Taken(order[k], b, n)
  {
    seq(|order|, k requires 0 <= k < |order| => Taken(order[k], b, n))
  }

  lemma WovenCons<T>(s: Step, order: seq<Step>, b: seq<T>, n: seq<T>)
    requires Indexed([s] + order, |b|, |n|)
    ensures Indexed(order, |b|, |n|) && Valid(s, |b|, |n|)
    ensures Woven([s] + order, b, n) == [Taken(s, b, n)] + Woven(order, b, n)
  {
    var all := [s] + order;
    assert all[0] == s;
    forall k | 0 <= k < |order| ensures Valid(order[k], |b|, |n|) { assert order[k] == all[k + 1]; }
    forall k | 0 <= k < |all| ensures Woven(all, b, n)[k] == ([Taken(s, b, n)] + Woven(order, b, n))[k] {
      if k > 0 { assert all[k] == order[k - 1]; }
    }
  }

  lemma WovenAppend<T>(order: seq<Step>, s: Step, b: seq<T>, n: seq<T>)
    requires Indexed(order, |b|, |n|) && Valid(s, |b|, |n|)
    ensures Indexed(order + [s], |b|, |n|)
    ensures Woven(order + [s], b, n) == Woven(order, b, n) + [Taken(s, b, n)]
  {
  }

  lemma {:induction false} MergeIndexed(base: seq<Trace>, bi: nat, noise: seq<Trace>, ni: nat)
    requires bi <= |base| && ni <= |noise|
    ensures Indexed(MergeFrom(base, bi, noise, ni), |base|, |noise|)
    decreases |base| - bi + |noise| - ni
  {
    if bi == |base| && ni == |noise| {
    } else if TakesBase(base, bi, noise, ni) {
      MergeIndexed(base, bi + 1, noise, ni);
    } else {
      MergeIndexed(base, bi, noise, ni + 1);
    }
  }

  function Merged(base: seq<Trace>, bi: nat, noise: seq<Trace>, ni: nat): (r: seq<Trace>)
    requires bi <= |base| && ni <= |noise|
    ensures |r| == |base| - bi + |noise| - ni
  {
    MergeIndexed(base, bi, noise, ni);
    Woven(MergeFrom(base, bi, noise, ni), base, noise)
  }

  function IdSeq(ts: seq<Trace>): (r: seq<nat>)
    ensures |r| == |ts| && forall i :: 0 <= i < |ts| ==> r[i] == ts[i].id
  {
    seq(|ts|, i requires 0 <= i < |ts| => ts[i].id)
  }

  // The first step of an interleaving, and the rest of it.
  lemma MergeStep<T>(base: seq<Trace>, bi: nat, noise: seq<Trace>, ni: nat, b: seq<T>, n: seq<T>)
    requires bi <= |base| && ni <= |noise| && (bi < |base| || ni < |noise|)
    requires |b| == |base| && |n| == |noise|
    ensures var order := MergeFrom(base, bi, noise, ni);
            && Indexed(order, |b|, |n|)
            && (TakesBase(base, bi, noise, ni) ==>
                  bi < |base| && Indexed(MergeFrom(base, bi + 1, noise, ni), |b|, |n|)
                  && Woven(order, b, n) == [b[bi]] + Woven(MergeFrom(base, bi + 1, noise, ni), b, n))
            && (!TakesBase(base, bi, noise, ni) ==>
                  ni < |noise| && Indexed(MergeFrom(base, bi, noise, ni + 1), |b|, |n|)
                  && Woven(order, b, n) == [n[ni]] + Woven(MergeFrom(base, bi, noise, ni + 1), b, n))
  {
    MergeIndexed(base, bi, noise, ni);
    if TakesBase(base, bi, noise, ni) {
      WovenCons(FromBase(bi), MergeFrom(base, bi + 1, noise, ni), b, n);
    } else {
      WovenCons(FromNoise(ni), MergeFrom(base, bi, noise, ni + 1), b, n);
    }
  }

  // Selecting the base traces' blocks from an interleaving gives them back in order.
  lemma {:induction false} SelectBase<T>(base: seq<Trace>, bi: nat, noise: seq<Trace>, ni: nat,
                                         b: seq<seq<T>>, n: seq<seq<T>>, keys: set<nat>)
    requires bi <= |base| && ni <= |noise| && |b| == |base| && |n| == |noise|
    requires forall i :: 0 <= i < |base| ==> base[i].id in keys
    requires forall j :: 0 <= j < |noise| ==> noise[j].id !in keys
    ensures Indexed(MergeFrom(base, bi, noise, ni), |b|, |n|)
    ensures Select(Woven(MergeFrom(base, bi, noise, ni), b, n), IdSeq(Merged(base, bi, noise, ni)), keys) == b[bi..]
    decreases |base| - bi + |noise| - ni
  {
    hide MergeFrom, Woven, Select, Indexed;
    MergeIndexed(base, bi, noise, ni);
    if bi == |base| && ni == |noise| {
      SelectNone(base, bi, noise, ni, b, n, keys);
    } else {
      MergeStep(base, bi, noise, ni, b, n);
      MergeStep(base, bi, noise, ni, base, noise);
      if TakesBase(base, bi, noise, ni) {
        SelectBase(base, bi + 1, noise, ni, b, n, keys);
        SelectFirst(b[bi], base[bi], Woven(MergeFrom(base, bi + 1, noise, ni), b, n),
                    Merged(base, bi + 1, noise, ni), keys);
        assert [b[bi]] + b[bi + 1..] == b[bi..];
      } else {
        SelectBase(base, bi, noise, ni + 1, b, n, keys);
        SelectFirst(n[ni], noise[ni], Woven(MergeFrom(base, bi, noise, ni + 1), b, n),
                    Merged(base, bi, noise, ni + 1), keys);
      }
    }
  }

  lemma SelectNone<T>(base: seq<Trace>, bi: nat, noise: seq<Trace>, ni: nat,
                      b: seq<seq<T>>, n: seq<seq<T>>, keys: set<nat>)
    requires bi == |base| == |b| && ni == |noise| == |n|
    ensures Indexed(MergeFrom(base, bi, noise, ni), |b|, |n|)
    ensures Select(Woven(MergeFrom(base, bi, noise, ni), b, n), IdSeq(Merged(base, bi, noise, ni)), keys) == []
  {
  }

  lemma SelectFirst<T>(block: seq<T>, owner: Trace, blocks: seq<seq<T>>, owners: seq<Trace>, keys: set<nat>)
    requires |blocks| == |owners|
    ensures Select([block] + blocks, IdSeq([owner] + owners), keys)
            == (if owner.id in keys then [block] else []) + Select(blocks, IdSeq(owners), keys)
  {
    assert IdSeq([owner] + owners) == [owner.id] + IdSeq(owners);
    SelectConcat([block], [owner.id], blocks, IdSeq(owners), keys);
    assert [block][..0] == [] && [owner.id][..0] == [];
  }

  // Interleaving permutes: every trace is written exactly once.
  lemma {:induction false} MergedElements(base: seq<Trace>, bi: nat, noise: seq<Trace>, ni: nat)
    requires bi <= |base| && ni <= |noise|
    ensures multiset(Merged(base, bi, noise, ni)) == multiset(base[bi..]) + multiset(noise[ni..])
    decreases |base| - bi + |noise| - ni
  {
    hide MergeFrom, Woven, Indexed;
    if bi == |base| && ni == |noise| {
      assert Merged(base, bi, noise, ni) == [];
    } else {
      MergeStep(base, bi, noise, ni, base, noise);
      if TakesBase(base, bi, noise, ni) {
        MergedElements(base, bi + 1, noise, ni);
        assert base[bi..] == [base[bi]] + base[bi + 1..];
      } else {
        MergedElements(base, bi, noise, ni + 1);
        assert noise[ni..] == [noise[ni]] + noise[ni + 1..];
      }
    }
  }

  // Interleaving two sorted lists is sorted.
  lemma {:induction false} MergedSorted(base: seq<Trace>, bi: nat, noise: seq<Trace>, ni: nat)
    requires bi <= |base| && ni <= |noise| && Sorted(base, StartsBefore) && Sorted(noise, StartsBefore)
    ensures Sorted(Merged(base, bi, noise, ni), StartsBefore)
    decreases |base| - bi + |noise| - ni
  {
    hide MergeFrom, Woven, Indexed;
    if bi == |base| && ni == |noise| {
      assert Merged(base, bi, noise, ni) == [];
    } else {
      MergeStep(base, bi, noise, ni, base, noise);
      if TakesBase(base, bi, noise, ni) {
        MergedSorted(base, bi + 1, noise, ni);
        FirstStartsBefore(base, bi + 1, noise, ni, base[bi]);
      } else {
        MergedSorted(base, bi, noise, ni + 1);
        FirstStartsBefore(base, bi, noise, ni + 1, noise[ni]);
      }
    }
  }

  lemma FirstStartsBefore(base: seq<Trace>, bi: nat, noise: seq<Trace>, ni: nat, t: Trace)
    requires bi <= |base| && ni <= |noise| && Sorted(base, StartsBefore) && Sorted(noise, StartsBefore)
    requires bi < |base| ==> StartsBefore(t, base[bi])
    requires ni < |noise| ==> StartsBefore(t, noise[ni])
    ensures forall k :: 0 <= k < |Merged(base, bi, noise, ni)| ==> StartsBefore(t, Merged(base, bi, noise, ni)[k])
  {
    var m := Merged(base, bi, noise, ni);
    MergedElements(base, bi, noise, ni);
    forall k | 0 <= k < |m| ensures StartsBefore(t, m[k]) {
      assert m[k] in multiset(m);
      if m[k] in base[bi..] {
        var i :| 0 <= i < |base[bi..]| && base[bi..][i] == m[k];
        assert m[k] == base[bi + i];
        assert i > 0 ==> StartsBefore(base[bi], base[bi + i]);
      } else {
        assert m[k] in noise[ni..];
        var i :| 0 <= i < |noise[ni..]| && noise[ni..][i] == m[k];
        assert m[k] == noise[ni + i];
        assert i > 0 ==> StartsBefore(noise[ni], noise[ni + i]);
      }
    }
  }

  // --- the emission of one generator's traces --------------------------------

  // Rows per trace.
  datatype Shape = Shape(spans: nat, logs: nat)

  datatype Emission = Emission(spans: seq<seq<Span>>, logs: seq<seq<Log>>, pos: nat)

  // Base trace k owns base log rows k * logs and on; noise rows have no base row.
  function RowBase(k: nat, shape: Shape, base: bool): int {
    if base then k * shape.logs else -1 - shape.logs
  }

  // The first k traces emitted in order from position p: their rows, and the position after.
  function Emitted(st: Stream, p: nat, ts: seq<Trace>, k: nat, shape: Shape, m: Marks, base: bool): (e: Emission)
    requires Lawful(st) && shape.spans <= SPAN_ID_HALF && k <= |ts|
    ensures |e.spans| == |e.logs| == k
  {
    if k == 0 then Emission([], [], p)
    else
      var e := Emitted(st, p, ts, k - 1, shape, m, base);
      var (spans, q) := Spans(st, e.pos, ts[k - 1], shape.spans);
      var (logs, q') := Logs(st, q, ts[k - 1], shape.logs, RowBase(k - 1, shape, base), m);
      Emission(e.spans + [spans], e.logs + [logs], q')
  }

  lemma {:induction false} EmittedPrefix(st: Stream, p: nat, ts: seq<Trace>, k: nat, n: nat, shape: Shape, m: Marks,
                                         base: bool)
    requires Lawful(st) && shape.spans <= SPAN_ID_HALF && k <= n <= |ts|
    ensures var e, f := Emitted(st, p, ts, k, shape, m, base), Emitted(st, p, ts, n, shape, m, base);
            e.spans == f.spans[..k] && e.logs == f.logs[..k]
  {
    hide Lawful, Spans, Logs;
    if k < n {
      EmittedPrefix(st, p, ts, k, n - 1, shape, m, base);
    }
  }

  // Block k of the whole emission is what trace k emits at its turn.
  lemma EmittedAt(st: Stream, p: nat, ts: seq<Trace>, k: nat, shape: Shape, m: Marks, base: bool)
    requires Lawful(st) && shape.spans <= SPAN_ID_HALF && k < |ts|
    ensures var e, f := Emitted(st, p, ts, k, shape, m, base), Emitted(st, p, ts, |ts|, shape, m, base);
            var (spans, q) := Spans(st, e.pos, ts[k], shape.spans);
            var (logs, q') := Logs(st, q, ts[k], shape.logs, RowBase(k, shape, base), m);
            f.spans[k] == spans && f.logs[k] == logs && Emitted(st, p, ts, k + 1, shape, m, base).pos == q'
  {
    hide Lawful, Spans, Logs;
    EmittedPrefix(st, p, ts, k + 1, |ts|, shape, m, base);
    var g := Emitted(st, p, ts, k + 1, shape, m, base);
    var f := Emitted(st, p, ts, |ts|, shape, m, base);
    assert g.spans[k] == f.spans[..k + 1][k] && g.logs[k] == f.logs[..k + 1][k];
  }

  // Every block holds its own trace's rows, the asked number of them, in the trace's hour.
  lemma EmittedFacts(st: Stream, p: nat, ts: seq<Trace>, k: nat, shape: Shape, m: Marks, base: bool, hs: Hours)
    requires Lawful(st) && shape.spans <= SPAN_ID_HALF && k < |ts| && AllWellTimed(ts, hs)
    ensures var f := Emitted(st, p, ts, |ts|, shape, m, base);
            && |f.spans[k]| == shape.spans && SpanTree(f.spans[k], ts[k], hs)
            && |f.logs[k]| == shape.logs && LogRows(f.logs[k], ts[k], hs, RowBase(k, shape, base), m)
  {
    hide Lawful, Emitted, Spans, Logs, SpanTree, LogRows, WellTimed;
    EmittedAt(st, p, ts, k, shape, m, base);
    var e := Emitted(st, p, ts, k, shape, m, base);
    SpansFacts(st, e.pos, ts[k], shape.spans, hs);
    var q := Spans(st, e.pos, ts[k], shape.spans).1;
    LogsFacts(st, q, ts[k], shape.logs, RowBase(k, shape, base), m, hs);
  }

  // --- the writing loop ------------------------------------------------------

  const NO_MARKS := Marks(map[], None)

  method WriteRows(rng: Random, nrng: Random, base: seq<Trace>, noise: seq<Trace>, shape: Shape, m: Marks,
                   spans: Sink<Span>, logs: Sink<Log>) returns (at: Positions)
    requires rng != nrng && Lawful(rng.stream) && Lawful(nrng.stream) && shape.spans <= SPAN_ID_HALF
    requires spans.rows == [] && logs.rows == []
    modifies rng, nrng, spans, logs
    ensures var b := Emitted(rng.stream, old(rng.pos), base, |base|, shape, m, true);
            var n := Emitted(nrng.stream, old(nrng.pos), noise, |noise|, shape, NO_MARKS, false);
            var order := MergeFrom(base, 0, noise, 0);
            && Indexed(order, |base|, |noise|)
            && spans.rows == Flatten(Woven(order, b.spans, n.spans))
            && logs.rows == Flatten(Woven(order, b.logs, n.logs))
            && rng.pos == b.pos && nrng.pos == n.pos
    ensures at == Positioned(logs.rows)
  {
    hide Lawful, Flatten, Spans, Logs, Positioned, Woven;
    ghost var st, nst, p, np := rng.stream, nrng.stream, rng.pos, nrng.pos;
    ghost var b := Emitted(st, p, base, |base|, shape, m, true);
    ghost var n := Emitted(nst, np, noise, |noise|, shape, NO_MARKS, false);
    ghost var done: seq<Step> := [];
    var bi, ni := 0, 0;
    at := Positions({}, {}, {});
    NothingWritten(b, n);
    MergeIndexed(base, 0, noise, 0);
    while bi < |base| || ni < |noise|
      invariant bi <= |base| && ni <= |noise|
      invariant done + MergeFrom(base, bi, noise, ni) == MergeFrom(base, 0, noise, 0)
      invariant Indexed(done, |base|, |noise|)
      invariant spans.rows == Flatten(Woven(done, b.spans, n.spans))
      invariant logs.rows == Flatten(Woven(done, b.logs, n.logs))
      invariant rng.pos == Emitted(st, p, base, bi, shape, m, true).pos
      invariant nrng.pos == Emitted(nst, np, noise, ni, shape, NO_MARKS, false).pos
      invariant at == Positioned(logs.rows)
      decreases |base| - bi + |noise| - ni
    {
      var takeBase := TakesBase(base, bi, noise, ni);
      ghost var step := if takeBase then FromBase(bi) else FromNoise(ni);
      WriteStep(done, step, b, n);
      if takeBase {
        EmittedAt(st, p, base, bi, shape, m, true);
        EmitTrace(rng, base[bi], shape.spans, spans);
        at := EmitLogs(rng, base[bi], shape.logs, logs, RowBase(bi, shape, true), m, at);
        bi := bi + 1;
      } else {
        EmittedAt(nst, np, noise, ni, shape, NO_MARKS, false);
        EmitTrace(nrng, noise[ni], shape.spans, spans);
        at := EmitLogs(nrng, noise[ni], shape.logs, logs, RowBase(ni, shape, false), NO_MARKS, at);
        ni := ni + 1;
      }
      done := done + [step];
    }
    assert done == MergeFrom(base, 0, noise, 0);
  }

  lemma NothingWritten(b: Emission, n: Emission)
    requires |b.spans| == |b.logs| && |n.spans| == |n.logs|
    ensures Flatten(Woven([], b.spans, n.spans)) == [] && Flatten(Woven([], b.logs, n.logs)) == []
    ensures Positioned([]) == Positions({}, {}, {})
  {
  }

  lemma WriteStep(done: seq<Step>, s: Step, b: Emission, n: Emission)
    requires |b.spans| == |b.logs| && |n.spans| == |n.logs|
    requires Indexed(done, |b.spans|, |n.spans|) && Valid(s, |b.spans|, |n.spans|)
    ensures Indexed(done + [s], |b.spans|, |n.spans|)
    ensures Flatten(Woven(done + [s], b.spans, n.spans))
            == Flatten(Woven(done, b.spans, n.spans)) + Taken(s, b.spans, n.spans)
    ensures Flatten(Woven(done + [s], b.logs, n.logs))
            == Flatten(Woven(done, b.logs, n.logs)) + Taken(s, b.logs, n.logs)
  {
    WovenAppend(done, s, b.spans, n.spans);
    WovenAppend(done, s, b.logs, n.logs);
    FlattenAppend(Woven(done, b.spans, n.spans), Taken(s, b.spans, n.spans));
    FlattenAppend(Woven(done, b.logs, n.logs), Taken(s, b.logs, n.logs));
  }
}
