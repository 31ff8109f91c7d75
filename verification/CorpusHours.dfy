/**
 With evenly dealt hours the written files come in equal runs, one per hour: cutting
 them into as many equal batches as there are hours gives hour k's rows, and only
 those, as batch k, at every scale.
 */
module CorpusHours {
  import opened Numbers
  import opened RandomStream
  import opened Sequences
  import opened Sorting
  import opened CorpusTraces
  import opened CorpusNeedles
  import opened CorpusEmit
  import opened CorpusMerge
  import opened CorpusRun

  // How many traces start before hour h.
  function Before(ts: seq<Trace>, h: int, hs: Hours): nat {
    if ts == [] then 0
    else (if HourOf(ts[0].start, hs) < h then 1 else 0) + Before(ts[1..], h, hs)
  }

  lemma {:induction false} BeforeConcat(s: seq<Trace>, t: seq<Trace>, h: int, hs: Hours)
    ensures Before(s + t, h, hs) == Before(s, h, hs) + Before(t, h, hs)
  {
    if s == [] {
      assert s + t == t;
    } else {
      BeforeConcat(s[1..], t, h, hs);
      assert (s + t)[1..] == s[1..] + t;
    }
  }

  lemma {:induction false} BeforeInsert(x: Trace, s: seq<Trace>, h: int, hs: Hours)
    ensures Before(Insert(x, s, StartsBefore), h, hs) == Before([x] + s, h, hs)
  {
    BeforeConcat([x], s, h, hs);
    if s != [] && !StartsBefore(x, s[0]) {
      BeforeInsert(x, s[1..], h, hs);
      BeforeConcat([x], s[1..], h, hs);
      BeforeConcat([s[0]], Insert(x, s[1..], StartsBefore), h, hs);
    }
  }

  lemma {:induction false} BeforeSort(s: seq<Trace>, h: int, hs: Hours)
    ensures Before(Sort(s, StartsBefore), h, hs) == Before(s, h, hs)
  {
    if s != [] {
      BeforeSort(s[1..], h, hs);
      BeforeInsert(s[0], Sort(s[1..], StartsBefore), h, hs);
      BeforeConcat([s[0]], Sort(s[1..], StartsBefore), h, hs);
    }
  }

  lemma {:induction false} BeforeSameTimes(s: seq<Trace>, t: seq<Trace>, h: int, hs: Hours)
    requires SameTimes(s, t)
    ensures Before(s, h, hs) == Before(t, h, hs)
  {
    if s != [] { BeforeSameTimes(s[1..], t[1..], h, hs); }
  }

  lemma {:induction false} BeforeMerged(base: seq<Trace>, bi: nat, noise: seq<Trace>, ni: nat, h: int, hs: Hours)
    requires bi <= |base| && ni <= |noise|
    ensures Before(Merged(base, bi, noise, ni), h, hs) == Before(base[bi..], h, hs) + Before(noise[ni..], h, hs)
    decreases |base| - bi + |noise| - ni
  {
    hide MergeFrom, Woven, Indexed;
    if bi == |base| && ni == |noise| {
      assert Merged(base, bi, noise, ni) == [];
    } else {
      MergeStep(base, bi, noise, ni, base, noise);
      if TakesBase(base, bi, noise, ni) {
        BeforeMerged(base, bi + 1, noise, ni, h, hs);
        assert base[bi..][1..] == base[bi + 1..];
        BeforeConcat([base[bi]], Merged(base, bi + 1, noise, ni), h, hs);
      } else {
        BeforeMerged(base, bi, noise, ni + 1, h, hs);
        assert noise[ni..][1..] == noise[ni + 1..];
        BeforeConcat([noise[ni]], Merged(base, bi, noise, ni + 1), h, hs);
      }
    }
  }

  // Traces dealt round the hours: after q rounds and r more, q + 1 in the first r hours
  // and q in the others.
  ghost predicate Dealt(ts: seq<Trace>, hs: Hours) {
    hs.count > 0 && forall i :: 0 <= i < |ts| ==> HourOf(ts[i].start, hs) == i % hs.count
  }

  lemma {:induction false} BeforeDealt(ts: seq<Trace>, q: nat, r: nat, h: nat, hs: Hours)
    requires Dealt(ts, hs) && |ts| == q * hs.count + r && r < hs.count && h <= hs.count
    ensures Before(ts, h, hs) == q * h + Min(r, h)
    decreases |ts|
  {
    hide Before, HourOf;
    if ts == [] {
      assert q == 0 by { if q > 0 { MulAtLeast(q, hs.count); } }
      NoTraces(h, hs);
    } else {
      var n := |ts| - 1;
      BeforeLast(ts, h, hs);
      assert HourOf(ts[n].start, hs) == n % hs.count;
      if r > 0 {
        BeforeDealt(ts[..n], q, r - 1, h, hs);
        ModOfMultiple(q, hs.count, r - 1);
      } else {
        assert q > 0;
        assert q * hs.count == (q - 1) * hs.count + hs.count;
        BeforeDealt(ts[..n], q - 1, hs.count - 1, h, hs);
        ModOfMultiple(q - 1, hs.count, hs.count - 1);
        assert q * h == (q - 1) * h + h;
      }
    }
  }

  lemma NoTraces(h: int, hs: Hours)
    ensures Before([], h, hs) == 0
  {
  }

  lemma BeforeLast(ts: seq<Trace>, h: int, hs: Hours)
    requires ts != []
    ensures var n := |ts| - 1;
            Before(ts, h, hs) == Before(ts[..n], h, hs) + if HourOf(ts[n].start, hs) < h then 1 else 0
  {
    hide HourOf;
    var n := |ts| - 1;
    assert ts == ts[..n] + [ts[n]];
    BeforeConcat(ts[..n], [ts[n]], h, hs);
    assert [ts[n]][1..] == [];
  }

  // In a list sorted by start, the traces before hour h are the first ones.
  lemma {:induction false} BeforeIsPrefix(ts: seq<Trace>, h: int, hs: Hours, i: nat)
    requires Sorted(ts, StartsBefore) && i < |ts|
    ensures HourOf(ts[i].start, hs) < h <==> i < Before(ts, h, hs)
  {
    if HourOf(ts[0].start, hs) < h {
      if i > 0 {
        BeforeIsPrefix(ts[1..], h, hs, i - 1);
      }
    } else {
      NoneBefore(ts, h, hs);
      assert i > 0 ==> StartsBefore(ts[0], ts[i]);
      HourMonotone(ts[0].start, ts[i].start, hs);
    }
  }

  lemma HourMonotone(a: int, b: int, hs: Hours)
    requires a <= b
    ensures HourOf(a, hs) <= HourOf(b, hs)
  {
  }

  lemma {:induction false} NoneBefore(ts: seq<Trace>, h: int, hs: Hours)
    requires Sorted(ts, StartsBefore) && (ts != [] ==> HourOf(ts[0].start, hs) >= h)
    ensures Before(ts, h, hs) == 0
  {
    if |ts| > 1 {
      assert StartsBefore(ts[0], ts[1]);
      HourMonotone(ts[0].start, ts[1].start, hs);
      NoneBefore(ts[1..], h, hs);
    }
  }

  // --- the run ---------------------------------------------------------------

  lemma DrawnBefore(st: Stream, n: nat, q: nat, hs: Hours, seen: set<nat>, h: nat)
    requires Lawful(st) && hs.count > 0 && |seen| + n < ID_SPACE && hs.even && n == q * hs.count && h <= hs.count
    ensures Before(Sort(Drawn(st, 0, n, hs, seen).0, StartsBefore), h, hs) == q * h
  {
    hide Lawful, Drawn, Sort, Before;
    var d := Drawn(st, 0, n, hs, seen).0;
    DrawnTimes(st, 0, n, hs, seen);
    BeforeDealt(d, q, 0, h, hs);
    BeforeSort(d, h, hs);
  }

  lemma BaseBefore(st: Stream, a: Args, q: nat, h: nat)
    requires Runs(st, a) && a.hours.even && a.traces == q * a.hours.count && h <= a.hours.count
    ensures Before(BasePhase(st, a).traces, h, a.hours) == q * h
  {
    hide Lawful, Drawn, Sort, Before, NeedlePlan, PlanEnds, PlantedIndices, SavedAt;
    DrawnBefore(st, a.traces, q, a.hours, {}, h);
    var ts := Sort(Drawn(st, 0, a.traces, a.hours, {}).0, StartsBefore);
    BeforeSameTimes(ts, BasePhase(st, a).traces, h, a.hours);
  }

  lemma NoiseBefore(nst: Stream, a: Args, seen: set<nat>, q: nat, h: nat)
    requires Lawful(nst) && ValidArgs(a) && |seen| == a.traces
    requires a.hours.even && a.traces == q * a.hours.count && h <= a.hours.count
    ensures Before(NoisePhase(nst, a, seen).0, h, a.hours) == (a.scale - 1) * (q * h)
  {
    hide Lawful, Drawn, Sort, Before;
    if a.scale == 1 {
      BeforeNothing(h, a.hours);
    } else {
      NoiseFits(a);
      MulAssociates(a.scale - 1, q, a.hours.count);
      DrawnBefore(nst, NoiseCount(a), (a.scale - 1) * q, a.hours, seen, h);
      var ts := Sort(Drawn(nst, 0, NoiseCount(a), a.hours, seen).0, StartsBefore);
      BeforeSameTimes(ts, NoisePhase(nst, a, seen).0, h, a.hours);
      MulAssociates(a.scale - 1, q, h);
    }
  }

  lemma BeforeNothing(h: int, hs: Hours)
    ensures Before([], h, hs) == 0
  {
  }

  lemma MulAssociates(x: nat, y: nat, z: nat)
    ensures (x * y) * z == x * (y * z)
  {
  }

  lemma ScaleSplit(s: nat, x: nat)
    requires s >= 1
    ensures x + (s - 1) * x == s * x
  {
  }

  lemma OwnersBefore(st: Stream, nst: Stream, a: Args, q: nat, h: nat)
    requires Runs(st, a) && Lawful(nst) && a.hours.even && a.traces == q * a.hours.count && h <= a.hours.count
    ensures Before(WrittenBlocks(st, nst, a).owners, h, a.hours) == a.scale * (q * h)
  {
    hide Lawful, BasePhase, NoisePhase, Merged, Woven, MergeFrom, BaseRows, NoiseRows, Before, Sorted, AllWellTimed,
         DistinctIds, Ids;
    BaseFacts(st, a);
    var b := BasePhase(st, a);
    var noise := NoisePhase(nst, a, b.seen).0;
    BaseBefore(st, a, q, h);
    NoiseBefore(nst, a, b.seen, q, h);
    BeforeMerged(b.traces, 0, noise, 0, h, a.hours);
    assert b.traces[0..] == b.traces && noise[0..] == noise;
    ScaleSplit(a.scale, q * h);
  }

  // The traces in writing order: with c traces per hour, hour k owns positions k * c to
  // (k + 1) * c.
  lemma OwnersInHours(st: Stream, nst: Stream, a: Args, q: nat, c: nat, k: nat, i: nat)
    requires Runs(st, a) && Lawful(nst) && a.hours.even && a.traces == q * a.hours.count && k < a.hours.count
    requires c == a.scale * q && i < |WrittenBlocks(st, nst, a).owners|
    ensures HourOf(WrittenBlocks(st, nst, a).owners[i].start, a.hours) == k <==> k * c <= i < (k + 1) * c
  {
    hide Lawful, Runs, WrittenBlocks, CorpusOf, Before, Sorted, AllWellTimed, DistinctIds, HourOf, ValidArgs;
    var owners := WrittenBlocks(st, nst, a).owners;
    OwnersDistinct(st, nst, a);
    OwnersBefore(st, nst, a, q, k);
    OwnersBefore(st, nst, a, q, k + 1);
    BeforeIsPrefix(owners, k, a.hours, i);
    BeforeIsPrefix(owners, k + 1, a.hours, i);
    Regroup(a.scale, q, k);
    Regroup(a.scale, q, k + 1);
  }

  lemma Regroup(s: nat, q: nat, h: nat)
    ensures s * (q * h) == h * (s * q)
  {
  }

  // The batch of row r: rows of one size per trace, c traces per hour.
  lemma RowBlock(r: nat, size: nat, c: nat, k: nat)
    requires size > 0
    ensures r < k * (c * size) <==> r / size < k * c
  {
    assert k * (c * size) == (k * c) * size;
    BlockBelow(r, size, k * c);
  }

  lemma BlockBelow(r: nat, size: nat, n: nat)
    requires size > 0
    ensures r < n * size <==> r / size < n
  {
    var q, o := r / size, r % size;
    assert r == q * size + o;
    if q < n {
      assert (n - q) * size >= size by { MulAtLeast(n - q, size); }
      assert n * size == q * size + (n - q) * size;
    } else {
      assert q * size == n * size + (q - n) * size;
    }
  }

  lemma RowBatch(r: nat, size: nat, c: nat, k: nat)
    requires size > 0
    ensures k * c <= r / size < (k + 1) * c <==> k * (c * size) <= r < (k + 1) * (c * size)
  {
    RowBlock(r, size, c, k);
    RowBlock(r, size, c, k + 1);
  }

  lemma Quotient(r: nat, size: nat)
    requires size > 0
    ensures r == (r / size) * size + r % size && r % size < size
  {
  }

  // Row r of the concatenated blocks: its block and its place in it.
  lemma RowPlace<T>(blocks: seq<seq<T>>, size: nat, r: nat)
    requires Uniform(blocks, size) && size > 0 && r < |Flatten(blocks)|
    ensures r / size < |blocks| && |Flatten(blocks)| == |blocks| * size
    ensures |blocks[r / size]| == size && Flatten(blocks)[r] == blocks[r / size][r % size]
  {
    UniformLength(blocks, size);
    BlockBelow(r, size, |blocks|);
    Quotient(r, size);
    UniformIndex(blocks, size, r / size, r % size);
  }

  // Cutting the spans file into as many equal batches as there are hours gives hour k's
  // spans, and only those, as batch k; q is the number of base traces per hour.
  lemma SpanBatches(st: Stream, nst: Stream, a: Args, q: nat, c: nat, r: nat, k: nat)
    requires Runs(st, a) && Lawful(nst) && a.hours.even && a.traces == q * a.hours.count && k < a.hours.count
    requires c == a.scale * q && r < |CorpusOf(st, nst, a).spans|
    ensures var spans := CorpusOf(st, nst, a).spans; var batch := c * a.shape.spans;
            && |spans| == a.hours.count * batch
            && (HourOf(spans[r].start, a.hours) == k <==> k * batch <= r < (k + 1) * batch)
            && HourOf(spans[r].end, a.hours) == HourOf(spans[r].start, a.hours)
  {
    hide Lawful, Runs, CorpusOf, WrittenBlocks, Owned, Uniform, DistinctIds, Sorted, AllWellTimed, HourOf, ValidArgs,
         Flatten;
    var w := WrittenBlocks(st, nst, a);
    SizesPositive(st, a);
    BlocksOwned(st, nst, a);
    OwnersDistinct(st, nst, a);
    RowPlace(w.spans, a.shape.spans, r);
    RowBatch(r, a.shape.spans, c, k);
    var block := r / a.shape.spans;
    BlockFacts(st, nst, a, block);
    OwnersInHours(st, nst, a, q, c, k, block);
    BatchTotal(a.scale, q, c, a.hours.count, a.shape.spans, a.traces);
    assert SpanRow(w.spans[block][r % a.shape.spans], w.owners[block], a.hours);
  }

  // And the same for the logs file.
  lemma LogBatches(st: Stream, nst: Stream, a: Args, q: nat, c: nat, r: nat, k: nat)
    requires Runs(st, a) && Lawful(nst) && a.hours.even && a.traces == q * a.hours.count && k < a.hours.count
    requires c == a.scale * q && r < |CorpusOf(st, nst, a).logs|
    ensures var logs := CorpusOf(st, nst, a).logs; var batch := c * a.shape.logs;
            && |logs| == a.hours.count * batch
            && (HourOf(logs[r].ts, a.hours) == k <==> k * batch <= r < (k + 1) * batch)
  {
    hide Lawful, Runs, CorpusOf, WrittenBlocks, Owned, Uniform, DistinctIds, Sorted, AllWellTimed, HourOf, ValidArgs,
         Flatten, SpanTree;
    var w := WrittenBlocks(st, nst, a);
    SizesPositive(st, a);
    BlocksOwned(st, nst, a);
    OwnersDistinct(st, nst, a);
    RowPlace(w.logs, a.shape.logs, r);
    RowBatch(r, a.shape.logs, c, k);
    var block := r / a.shape.logs;
    BlockFacts(st, nst, a, block);
    OwnersInHours(st, nst, a, q, c, k, block);
    BatchTotal(a.scale, q, c, a.hours.count, a.shape.logs, a.traces);
  }

  lemma SizesPositive(st: Stream, a: Args)
    requires Runs(st, a)
    ensures a.shape.spans > 0 && a.shape.logs > 0
  {
  }

  lemma BatchTotal(scale: nat, q: nat, c: nat, count: nat, size: nat, traces: nat)
    requires traces == q * count && c == scale * q
    ensures (scale * traces) * size == count * (c * size)
  {
    MulAssociates(scale, q, count);
    MulAssociates(count, c, size);
    assert scale * traces == count * c;
  }
}
