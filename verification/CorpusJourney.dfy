/**
 The journey cut points: the recorded cut admits exactly the recorded number of root
 spans of the failing hour, and their logs are the recorded count.
 */
module CorpusJourney {
  import opened Numbers
  import opened Wrappers
  import opened RandomStream
  import opened Sequences
  import opened Sorting
  import opened CorpusTraces
  import opened CorpusEmit
  import opened CorpusMerge
  import opened CorpusRun
  import opened CorpusOracle

  function HourStart(hs: Hours): int { (hs.first + FailingHour(hs)) * HOUR_NS }

  function HourEnd(hs: Hours): int { HourStart(hs) + HOUR_NS }

  lemma FailingRange(t: Trace, hs: Hours)
    ensures InFailingHour(t, hs) <==> HourStart(hs) <= t.start < HourEnd(hs)
  {
  }

  // The starts of the failing hour's traces.
  function FailingStarts(ts: seq<Trace>, hs: Hours): seq<int> {
    if ts == [] then []
    else (if InFailingHour(ts[0], hs) then [ts[0].start] else []) + FailingStarts(ts[1..], hs)
  }

  predicate LeqInt(x: int, y: int) { x <= y }

  function HourStarts(c: Corpus, hs: Hours): seq<int> {
    Sort(FailingStarts(c.base.traces, hs) + FailingStarts(c.noise, hs), LeqInt)
  }

  // The end of the first k root spans of the hour, and how many those are.
  function Cut(starts: seq<int>, k: nat, hs: Hours): (int, nat) {
    var got := Min(k, |starts|);
    (if got < |starts| then starts[got] else HourEnd(hs), got)
  }

  function Values(xs: seq<int>): set<int> { set x | x in xs }

  // A list has as many values as entries exactly when it repeats none.
  lemma {:induction false} SetCount(xs: seq<int>)
    ensures |Values(xs)| <= |xs| && (|Values(xs)| == |xs| <==> Distinct(xs))
  {
    if xs != [] {
      var n := |xs| - 1;
      SetCount(xs[..n]);
      assert xs == xs[..n] + [xs[n]];
      assert Values(xs) == Values(xs[..n]) + {xs[n]};
      if xs[n] in xs[..n] {
        var i :| 0 <= i < n && xs[..n][i] == xs[n];
        assert xs[i] == xs[n];
      }
    }
  }

  // main stops when two traces of the hour share a start; otherwise one cut per tier.
  method JourneyCuts(c: Corpus, hs: Hours, tiers: seq<nat>) returns (r: Result<seq<(int, nat)>, string>)
    ensures r.Ok? <==> Distinct(HourStarts(c, hs))
    ensures r.Ok? ==> |r.value| == |tiers|
                      && forall i :: 0 <= i < |tiers| ==> r.value[i] == Cut(HourStarts(c, hs), tiers[i], hs)
  {
    hide HourStarts, Cut, Values, Distinct;
    var starts := HourStarts(c, hs);
    SetCount(starts);
    if |Values(starts)| != |starts| {
      return Err("two failing-hour traces share a start; journey cut points would be inexact");
    }
    var cuts: seq<(int, nat)> := [];
    for i := 0 to |tiers|
      invariant |cuts| == i && forall j :: 0 <= j < i ==> cuts[j] == Cut(starts, tiers[j], hs)
    {
      cuts := cuts + [Cut(starts, tiers[i], hs)];
    }
    r := Ok(cuts);
  }

  // --- counting --------------------------------------------------------------

  // How many are below x.
  function Fewer(xs: seq<int>, x: int): nat {
    if xs == [] then 0 else (if xs[0] < x then 1 else 0) + Fewer(xs[1..], x)
  }

  lemma {:induction false} FewerConcat(xs: seq<int>, ys: seq<int>, x: int)
    ensures Fewer(xs + ys, x) == Fewer(xs, x) + Fewer(ys, x)
  {
    if xs == [] {
      assert xs + ys == ys;
    } else {
      FewerConcat(xs[1..], ys, x);
      assert (xs + ys)[1..] == xs[1..] + ys;
    }
  }

  lemma {:induction false} FewerInsert(y: int, xs: seq<int>, x: int)
    ensures Fewer(Insert(y, xs, LeqInt), x) == Fewer([y], x) + Fewer(xs, x)
  {
    FewerConcat([y], xs, x);
    if xs != [] && !LeqInt(y, xs[0]) {
      FewerInsert(y, xs[1..], x);
      FewerConcat([xs[0]], Insert(y, xs[1..], LeqInt), x);
    }
  }

  lemma {:induction false} FewerSort(xs: seq<int>, x: int)
    ensures Fewer(Sort(xs, LeqInt), x) == Fewer(xs, x)
  {
    if xs != [] {
      FewerSort(xs[1..], x);
      FewerInsert(xs[0], Sort(xs[1..], LeqInt), x);
      FewerConcat([xs[0]], xs[1..], x);
      assert xs == [xs[0]] + xs[1..];
    }
  }

  // In a strictly ascending list exactly g elements are below element g.
  lemma {:induction false} FewerAt(xs: seq<int>, g: nat)
    requires Sorted(xs, LeqInt) && Distinct(xs) && g < |xs|
    ensures Fewer(xs, xs[g]) == g
  {
    if g > 0 {
      assert LeqInt(xs[0], xs[g]);
      FewerAt(xs[1..], g - 1);
    } else {
      FewerNone(xs, xs[0]);
    }
  }

  lemma {:induction false} FewerNone(xs: seq<int>, x: int)
    requires Sorted(xs, LeqInt) && (xs != [] ==> x <= xs[0])
    ensures Fewer(xs, x) == 0
  {
    if |xs| > 1 {
      assert LeqInt(xs[0], xs[1]);
      FewerNone(xs[1..], x);
    }
  }

  lemma {:induction false} FewerAll(xs: seq<int>, x: int)
    requires forall i :: 0 <= i < |xs| ==> xs[i] < x
    ensures Fewer(xs, x) == |xs|
  {
    if xs != [] { FewerAll(xs[1..], x); }
  }

  predicate StartIn(t: Trace, lo: int, hi: int) { lo <= t.start < hi }

  function IdsIn(ts: seq<Trace>, lo: int, hi: int): set<nat> {
    set i | 0 <= i < |ts| && StartIn(ts[i], lo, hi) :: ts[i].id
  }

  // Traces of the hour that start before hi are as many as hour starts below hi.
  lemma {:induction false} IdsInCount(ts: seq<Trace>, hi: int, hs: Hours)
    requires DistinctIds(ts) && hi <= HourEnd(hs)
    ensures |IdsIn(ts, HourStart(hs), hi)| == Fewer(FailingStarts(ts, hs), hi)
  {
    if ts != [] {
      IdsInCount(ts[1..], hi, hs);
      FailingRange(ts[0], hs);
      IdsInCons(ts, HourStart(hs), hi);
      var first := if InFailingHour(ts[0], hs) then [ts[0].start] else [];
      FewerConcat(first, FailingStarts(ts[1..], hs), hi);
    }
  }

  lemma IdsInCons(ts: seq<Trace>, lo: int, hi: int)
    requires ts != [] && DistinctIds(ts)
    ensures IdsIn(ts, lo, hi) == (if StartIn(ts[0], lo, hi) then {ts[0].id} else {}) + IdsIn(ts[1..], lo, hi)
    ensures ts[0].id !in IdsIn(ts[1..], lo, hi)
  {
    forall i | 1 <= i < |ts| && StartIn(ts[i], lo, hi) ensures ts[i].id in IdsIn(ts[1..], lo, hi) {
      assert ts[1..][i - 1] == ts[i];
    }
    assert forall i :: 0 <= i < |ts[1..]| ==> ts[1..][i] == ts[i + 1];
  }

  // --- the run ---------------------------------------------------------------

  // The trace ids of the root spans a scan of the file finds in [lo, hi).
  function RootsIn(spans: seq<Span>, lo: int, hi: int): set<nat> {
    set r | 0 <= r < |spans| && spans[r].parent.None? && lo <= spans[r].start < hi :: spans[r].traceId
  }

  lemma RootsAreOwners(st: Stream, nst: Stream, a: Args, lo: int, hi: int)
    requires Runs(st, a) && Lawful(nst)
    ensures RootsIn(CorpusOf(st, nst, a).spans, lo, hi) == IdsIn(WrittenBlocks(st, nst, a).owners, lo, hi)
  {
    hide Lawful, Runs, CorpusOf, WrittenBlocks;
    var spans, owners := CorpusOf(st, nst, a).spans, WrittenBlocks(st, nst, a).owners;
    forall id | id in RootsIn(spans, lo, hi) ensures id in IdsIn(owners, lo, hi) {
      var r :| 0 <= r < |spans| && spans[r].parent.None? && lo <= spans[r].start < hi && spans[r].traceId == id;
      var i := RootOwner(st, nst, a, r);
      assert StartIn(owners[i], lo, hi);
    }
    forall id | id in IdsIn(owners, lo, hi) ensures id in RootsIn(spans, lo, hi) {
      var i :| 0 <= i < |owners| && StartIn(owners[i], lo, hi) && owners[i].id == id;
      var r := RootWritten(st, nst, a, i);
    }
  }

  lemma IdsInUnion(owners: seq<Trace>, base: seq<Trace>, noise: seq<Trace>, lo: int, hi: int)
    requires multiset(owners) == multiset(base) + multiset(noise)
    ensures IdsIn(owners, lo, hi) == IdsIn(base, lo, hi) + IdsIn(noise, lo, hi)
  {
    forall t ensures t in owners <==> t in base || t in noise {
      assert t in multiset(owners) <==> t in multiset(base) || t in multiset(noise);
    }
    forall i | 0 <= i < |owners| && StartIn(owners[i], lo, hi)
      ensures owners[i].id in IdsIn(base, lo, hi) + IdsIn(noise, lo, hi)
    {
      assert owners[i] in owners;
    }
    forall i | 0 <= i < |base| && StartIn(base[i], lo, hi) ensures base[i].id in IdsIn(owners, lo, hi) {
      assert base[i] in base;
    }
    forall i | 0 <= i < |noise| && StartIn(noise[i], lo, hi) ensures noise[i].id in IdsIn(owners, lo, hi) {
      assert noise[i] in noise;
    }
  }

  // The number of hour starts below a cut.
  lemma CutAdmits(xs: seq<int>, k: nat, hs: Hours)
    requires Sorted(xs, LeqInt) && Distinct(xs) && forall i :: 0 <= i < |xs| ==> xs[i] < HourEnd(hs)
    ensures var (cut, got) := Cut(xs, k, hs); cut <= HourEnd(hs) && Fewer(xs, cut) == got
  {
    var got := Min(k, |xs|);
    if got < |xs| { FewerAt(xs, got); } else { FewerAll(xs, HourEnd(hs)); }
  }

  lemma {:induction false} StartsBelowEnd(ts: seq<Trace>, hs: Hours)
    ensures forall i :: 0 <= i < |FailingStarts(ts, hs)| ==> FailingStarts(ts, hs)[i] < HourEnd(hs)
  {
    if ts != [] {
      StartsBelowEnd(ts[1..], hs);
      FailingRange(ts[0], hs);
    }
  }

  lemma HourStartsFacts(c: Corpus, hs: Hours)
    ensures Sorted(HourStarts(c, hs), LeqInt)
    ensures forall i :: 0 <= i < |HourStarts(c, hs)| ==> HourStarts(c, hs)[i] < HourEnd(hs)
  {
    var all := FailingStarts(c.base.traces, hs) + FailingStarts(c.noise, hs);
    SortSorted(all, LeqInt);
    StartsBelowEnd(c.base.traces, hs);
    StartsBelowEnd(c.noise, hs);
    forall i | 0 <= i < |HourStarts(c, hs)| ensures HourStarts(c, hs)[i] < HourEnd(hs) {
      assert HourStarts(c, hs)[i] in multiset(Sort(all, LeqInt)) && HourStarts(c, hs)[i] in all;
    }
  }

  // journey_c.<k>: when the generator does not stop, the root spans of the failing hour
  // before the recorded cut number exactly the recorded count, and so do their logs.
  lemma JourneyExact(st: Stream, nst: Stream, a: Args, k: nat)
    requires Runs(st, a) && Lawful(nst) && Distinct(HourStarts(CorpusOf(st, nst, a), a.hours))
    ensures var c := CorpusOf(st, nst, a); var (cut, got) := Cut(HourStarts(c, a.hours), k, a.hours);
            var found := RootsIn(c.spans, HourStart(a.hours), cut);
            |found| == got && |Keep(c.logs, LogOwner, found)| == got * a.shape.logs
  {
    hide Lawful, BasePhase, BaseRows, NoiseRows, NoisePhase, Flatten, Woven, MergeFrom, Sorted, AllWellTimed,
         WrittenBlocks, Keep, ValidArgs, HourStarts, Cut, Fewer, InCell, IdsIn, FailingStarts, HourStart, HourEnd,
         RootsIn, Distinct;
    var c := CorpusOf(st, nst, a);
    var (cut, got) := Cut(HourStarts(c, a.hours), k, a.hours);
    var lo := HourStart(a.hours);
    HourStartsFacts(c, a.hours);
    CutAdmits(HourStarts(c, a.hours), k, a.hours);
    BaseFacts(st, a);
    NoiseFacts(nst, a, c.base.seen);
    OwnersDistinct(st, nst, a);
    var owners := WrittenBlocks(st, nst, a).owners;
    IdsInUnion(owners, c.base.traces, c.noise, lo, cut);
    IdsInCount(c.base.traces, cut, a.hours);
    IdsInCount(c.noise, cut, a.hours);
    HourStartsFewer(c, a.hours, cut);
    IdsInSubset(c.base.traces, lo, cut);
    IdsInSubset(c.noise, lo, cut);
    IdsInSubset(owners, lo, cut);
    RootsAreOwners(st, nst, a, lo, cut);
    RowsOfTraces(st, nst, a, IdsIn(owners, lo, cut));
  }

  lemma HourStartsFewer(c: Corpus, hs: Hours, x: int)
    ensures Fewer(HourStarts(c, hs), x)
            == Fewer(FailingStarts(c.base.traces, hs), x) + Fewer(FailingStarts(c.noise, hs), x)
  {
    FewerSort(FailingStarts(c.base.traces, hs) + FailingStarts(c.noise, hs), x);
    FewerConcat(FailingStarts(c.base.traces, hs), FailingStarts(c.noise, hs), x);
  }

  lemma IdsInSubset(ts: seq<Trace>, lo: int, hi: int)
    ensures IdsIn(ts, lo, hi) <= Ids(ts)
  {
  }
}
