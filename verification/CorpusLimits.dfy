/**
 Which arguments of the corpus generator make the truth record exact on every run, for
 the two answers that some runs get wrong: the failing cell of a noise-only corpus and the
 lists of request ids. Each failing argument comes with streams on which the answer fails.
 */
module CorpusLimits {
  import opened RandomStream
  import opened Sequences
  import opened Sorting
  import opened CorpusTraces
  import opened CorpusNeedles
  import opened CorpusMerge
  import opened CorpusRun
  import opened CorpusOracle
  import opened CorpusRequests

  // --- a stream with scripted first draws ------------------------------------

  // The first k draws follow the script where it stays in range; then every space cycles.
  // Every chance comes true.
  function Scripted(script: (Draw, nat) -> nat, k: nat): Stream {
    Stream((d: Draw, p: nat) => (ScriptedValue(script, k, d, p), p + 1), (p: nat) => (true, p), LastIndices)
  }

  function ScriptedValue(script: (Draw, nat) -> nat, k: nat, d: Draw, p: nat): nat {
    if p < k && InSpace(d, script(d, p)) then script(d, p) else CycleDraw(d, p).0
  }

  lemma {:induction false} ScriptedNth(script: (Draw, nat) -> nat, k: nat, d: Draw, p: nat, j: nat)
    ensures Nth(Scripted(script, k), d, p, j) == ScriptedValue(script, k, d, p + j)
    decreases j
  {
    if j > 0 { ScriptedNth(script, k, d, p + 1, j - 1); }
  }

  lemma ScriptedLawful(script: (Draw, nat) -> nat, k: nat)
    ensures Lawful(Scripted(script, k))
  {
    var st := Scripted(script, k);
    CycleLawful();
    forall d, p | Inhabited(d) ensures InSpace(d, st.pull(d, p).0) {
      assert InSpace(d, CYCLE.pull(d, p).0);
    }
    forall d, p: nat, v: nat | InSpace(d, v) ensures Recurs(st, d, p, v) {
      assert Recurs(CYCLE, d, p + k, v);
      var j: nat :| Nth(CYCLE, d, p + k, j) == v;
      CycleNth(d, p + k, j);
      ScriptedNth(script, k, d, p, k + j);
    }
    forall p, n, m | m <= n ensures SampleOf(st.sample(p, n, m).0, n, m) {
      assert SampleOf(CYCLE.sample(p, n, m).0, n, m);
    }
  }

  // --- the first traces of a draw --------------------------------------------

  // A shorter draw is the beginning of a longer one.
  lemma {:induction false} DrawnPrefix(st: Stream, p: nat, m: nat, n: nat, hs: Hours, seen: set<nat>)
    requires Lawful(st) && hs.count > 0 && |seen| + n < ID_SPACE && m <= n
    ensures Drawn(st, p, m, hs, seen).0 == Drawn(st, p, n, hs, seen).0[..m]
    ensures Drawn(st, p, m, hs, seen).1 <= Drawn(st, p, n, hs, seen).1
  {
    hide DrawTrace, Lawful, Drawn;
    if m < n {
      DrawnPrefix(st, p, m, n - 1, hs, seen);
      DrawnStep(st, p, n, hs, seen);
    }
  }

  // --- the failing cell of a noise-only corpus -------------------------------

  // Ids count up, hours are the failing one, and everything else is its least value.
  function CellValue(hs: Hours, d: Draw, p: nat): nat {
    match d
    case Bits(_) => p / 3 + 1
    case OddBits(_) => 1
    case Range(lo, _) => if p == 1 && !hs.even then hs.count / 2 else lo
  }

  function CellScript(hs: Hours): (Draw, nat) -> nat {
    (d: Draw, p: nat) => CellValue(hs, d, p)
  }

  function CellStream(hs: Hours): Stream { Scripted(CellScript(hs), 3 * hs.count + 4) }

  lemma CellLawful(hs: Hours)
    ensures Lawful(CellStream(hs))
  {
    hide Lawful;
    ScriptedLawful(CellScript(hs), 3 * hs.count + 4);
  }

  lemma CellPull(hs: Hours, d: Draw, p: nat)
    requires p < 3 * hs.count + 4 && InSpace(d, CellValue(hs, d, p))
    ensures CellStream(hs).pull(d, p) == (CellValue(hs, d, p), p + 1)
    ensures CellStream(hs).chance(p + 1) == (true, p + 1)
  {
  }

  // On that stream trace i of an even deal is drawn at position 3i with id i + 1, an error
  // of service 0.
  lemma CellEven(hs: Hours, i: nat, seen: set<nat>)
    requires Lawful(CellStream(hs)) && hs.even && i < hs.count && i + 1 < ID_SPACE
    requires |seen| + 1 < ID_SPACE && forall id :: id in seen ==> id <= i
    ensures DrawTrace(CellStream(hs), 3 * i, i, hs, seen)
            == (Trace(i + 1, StartOf(hs, i, 0), FAILING_SERVICE, true), 3 * (i + 1))
  {
    hide Lawful, StartOf, CellStream, HourOf, FreshId;
    CellId(hs, i, seen);
    CellPull(hs, Range(0, HOUR_NS - TRACE_MARGIN_NS), 3 * i + 1);
    CellPull(hs, Range(0, SERVICES), 3 * i + 2);
    ModOfMultiple(0, hs.count, i);
  }

  // The first trace of any other deal is one, in the failing hour.
  lemma CellFirst(hs: Hours)
    requires Lawful(CellStream(hs)) && !hs.even && hs.count > 0
    ensures DrawTrace(CellStream(hs), 0, 0, hs, {}).0 == Trace(1, StartOf(hs, hs.count / 2, 0), FAILING_SERVICE, true)
  {
    hide Lawful, StartOf, CellStream, HourOf, FreshId;
    CellId(hs, 0, {});
    CellPull(hs, Range(0, hs.count), 1);
    CellPull(hs, Range(0, HOUR_NS - TRACE_MARGIN_NS), 2);
    CellPull(hs, Range(0, SERVICES), 3);
  }

  lemma CellId(hs: Hours, i: nat, seen: set<nat>)
    requires Lawful(CellStream(hs)) && i < hs.count && i + 1 < ID_SPACE
    requires |seen| + 1 < ID_SPACE && forall id :: id in seen ==> id <= i
    ensures FreshId(CellStream(hs), 3 * i, seen) == (i + 1, 3 * i + 1)
  {
    hide Lawful, CellStream;
    CellPull(hs, Bits(ID_SPACE), 3 * i);
    assert i + 1 !in seen + {0};
  }

  lemma {:induction false} CellDrawn(hs: Hours, n: nat)
    requires Lawful(CellStream(hs)) && hs.even && n < hs.count < ID_SPACE
    ensures var d := Drawn(CellStream(hs), 0, n, hs, {}); d.2 == 3 * n && forall id :: id in d.1 ==> id <= n
  {
    hide DrawTrace, Lawful, Drawn, CellStream;
    DrawnStep(CellStream(hs), 0, n, hs, {});
    if n > 0 {
      CellDrawn(hs, n - 1);
      CellEven(hs, n - 1, Drawn(CellStream(hs), 0, n - 1, hs, {}).1);
    }
  }

  // Some trace of the draw is in the failing cell.
  lemma CellReached(hs: Hours, n: nat) returns (i: nat)
    requires Lawful(CellStream(hs)) && 0 < n < ID_SPACE && hs.count > 0 && (hs.even ==> hs.count <= n)
    ensures i < n && InCell(Drawn(CellStream(hs), 0, n, hs, {}).0[i], hs)
  {
    hide DrawTrace, Lawful, Drawn, CellStream, StartOf, HourOf;
    var st := CellStream(hs);
    i := if hs.even then hs.count / 2 else 0;
    if hs.even {
      CellDrawn(hs, i);
      CellEven(hs, i, Drawn(st, 0, i, hs, {}).1);
    } else {
      DrawnStep(st, 0, 0, hs, {});
      CellFirst(hs);
    }
    StartInHour(hs, hs.count / 2, 0);
    DrawnStep(st, 0, i + 1, hs, {});
    DrawnPrefix(st, 0, i + 1, n, hs, {});
    assert Drawn(st, 0, n, hs, {}).0[i] == Drawn(st, 0, i + 1, hs, {}).0[i];
  }

  lemma EvenHoursFit(traces: nat, count: nat)
    requires traces > 0 && count > 0 && traces % count == 0
    ensures count <= traces
  {
  }

  // For all arguments of a noise-only corpus there are generators with which the scan
  // finds a trace of the failing cell that the record lacks.
  lemma NoiseOnlyMisses(a: Args)
    requires ValidArgs(a) && a.noiseOnly
    ensures Lawful(CYCLE) && Runs(CellStream(a.hours), a)
    ensures var c := CorpusOf(CellStream(a.hours), CYCLE, a);
            FailingIn(c.spans, a.hours) != {} && RecordedFailing(c.base) == {}
  {
    hide Lawful, BaseRows, NoiseRows, NoisePhase, Flatten, Woven, MergeFrom, Drawn, Sort, CellStream, FailingIn,
         InCell, SavedAt, DistinctIds, Sorted;
    CycleLawful();
    CellLawful(a.hours);
    var st := CellStream(a.hours);
    TracesBelowSpace(a);
    if a.hours.even { EvenHoursFit(a.traces, a.hours.count); }
    var i := CellReached(a.hours, a.traces);
    var drawn := Drawn(st, 0, a.traces, a.hours, {}).0;
    var ts := BasePhase(st, a).traces;
    assert multiset(ts) == multiset(drawn);
    assert drawn[i] in multiset(ts) && drawn[i] in ts;
    var j :| 0 <= j < |ts| && ts[j] == drawn[i];
    NoiseOnlyCell(st, CYCLE, a);
  }

  lemma TracesBelowSpace(a: Args)
    requires ValidArgs(a)
    ensures a.traces < ID_SPACE
  {
    MulAtLeast(a.scale, a.traces);
  }

  // failing_cell: the recorded ids are the ones a scan finds on every run if and only if
  // the corpus is not noise-only.
  lemma FailingCellIff(a: Args)
    requires ValidArgs(a)
    ensures (forall st, nst :: Runs(st, a) && Lawful(nst) ==>
               FailingIn(CorpusOf(st, nst, a).spans, a.hours) == RecordedFailing(CorpusOf(st, nst, a).base))
            <==> !a.noiseOnly
  {
    hide Lawful, Runs, CorpusOf, FailingIn, RecordedFailing, ValidArgs;
    if a.noiseOnly {
      NoiseOnlyMisses(a);
    } else {
      forall st, nst | Runs(st, a) && Lawful(nst)
        ensures FailingIn(CorpusOf(st, nst, a).spans, a.hours) == RecordedFailing(CorpusOf(st, nst, a).base)
      {
        FailingCellExact(st, nst, a);
      }
    }
  }

  // --- lists of request ids --------------------------------------------------

  // How many positions an uneven deal takes for the hour.
  function HourDraws(hs: Hours): nat { if hs.even then 0 else 1 }

  // On the cycling stream, a position not seen as an id becomes one.
  lemma EarlyTrace(p: nat, i: nat, hs: Hours, seen: set<nat>)
    requires Lawful(EARLY) && hs.count > 0 && |seen| + 1 < ID_SPACE && 0 < p < ID_SPACE && p !in seen
    ensures var (t, q) := DrawTrace(EARLY, p, i, hs, seen); t.id == p && q == p + 3 + HourDraws(hs)
  {
    hide Lawful, StartOf, HourOf;
    assert EARLY.pull(Bits(ID_SPACE), p) == (p, p + 1);
    assert FreshId(EARLY, p, seen) == (p, p + 1);
  }

  // From position 0 the first id is the least positive one not seen.
  lemma EarlyFirst(i: nat, hs: Hours, seen: set<nat>, id: nat)
    requires Lawful(EARLY) && hs.count > 0 && |seen| + 1 < ID_SPACE
    requires 0 < id < ID_SPACE && id !in seen && forall v :: 0 < v < id ==> v in seen
    ensures var (t, q) := DrawTrace(EARLY, 0, i, hs, seen); t.id == id && q == id + 3 + HourDraws(hs)
  {
    hide Lawful, StartOf, HourOf;
    FreshIdReached(EARLY, 0, seen);
    EarlyOutside(0, seen + {0}, id);
    assert FreshId(EARLY, 0, seen) == (id, id + 1);
  }

  lemma {:induction false} EarlyOutside(p: nat, avoid: set<nat>, id: nat)
    requires Reaches(EARLY, Bits(ID_SPACE), p, avoid) && p <= id < ID_SPACE && id !in avoid
    requires forall v :: p <= v < id ==> v in avoid
    ensures Outside(EARLY, Bits(ID_SPACE), p, avoid) == (id, id + 1)
    decreases id - p
  {
    assert EARLY.pull(Bits(ID_SPACE), p) == (p, p + 1);
    if p < id {
      WaitStep(EARLY, Bits(ID_SPACE), p, avoid);
      EarlyOutside(p + 1, avoid, id);
    }
  }

  // The first three ids of the cycling stream.
  function SecondId(hs: Hours): nat { 4 + HourDraws(hs) }

  function ThirdId(hs: Hours): nat { 7 + 2 * HourDraws(hs) }

  lemma EarlyOne(hs: Hours)
    requires Lawful(EARLY) && hs.count > 0
    ensures var d := Drawn(EARLY, 0, 1, hs, {}); d.1 == {1} && d.2 == SecondId(hs)
  {
    hide Lawful, DrawTrace, Drawn;
    DrawnStep(EARLY, 0, 0, hs, {});
    DrawnStep(EARLY, 0, 1, hs, {});
    EarlyFirst(0, hs, {}, 1);
  }

  lemma EarlyTwo(hs: Hours)
    requires Lawful(EARLY) && hs.count > 0
    ensures var d := Drawn(EARLY, 0, 2, hs, {}); d.1 == {1, SecondId(hs)} && d.2 == ThirdId(hs)
  {
    hide Lawful, DrawTrace, Drawn;
    EarlyOne(hs);
    DrawnStep(EARLY, 0, 2, hs, {});
    EarlyTrace(SecondId(hs), 1, hs, {1});
  }

  lemma EarlyThree(hs: Hours)
    requires Lawful(EARLY) && hs.count > 0
    ensures Drawn(EARLY, 0, 3, hs, {}).1 == {1, SecondId(hs), ThirdId(hs)}
  {
    hide Lawful, DrawTrace, Drawn;
    EarlyTwo(hs);
    DrawnStep(EARLY, 0, 3, hs, {});
    EarlyTrace(ThirdId(hs), 2, hs, {1, SecondId(hs)});
  }

  // There is a run at all: nothing to plan, or rows for the plan.
  predicate CanRun(a: Args) { a.noiseOnly || LogRowsOf(a) != 8193 }

  // Fewer than two of the written traces show a request id, at least one of them a base
  // trace: one trace in all, or one trace beside the one whose only log is planted.
  predicate OneShown(a: Args) {
    || a.scale * a.traces == 1
    || (a.shape.logs == 1 && !a.noiseOnly && (a.traces == 1 || (a.traces == 2 && a.scale == 1)))
  }

  lemma RunsEarly(a: Args)
    requires ValidArgs(a) && CanRun(a)
    ensures Lawful(EARLY) && Runs(EARLY, a)
  {
    hide Lawful, Drawn, Sort, PlantedIndices, PlanEnds, LogRowsOf;
    EarlyLawful();
    TracesBelowSpace(a);
    if !a.noiseOnly {
      var d := Drawn(EARLY, 0, a.traces, a.hours, {});
      PlansEarly(PlantedIndices(EARLY, d.2, Sort(d.0, StartsBefore), a.hours).1, LogRowsOf(a));
    }
  }

  lemma PlansEarly(p: nat, rows: nat)
    requires rows != 8193
    ensures PlanEnds(EARLY, p, rows)
  {
    if rows >= BLOCK_ROWS { EndsEarly(p, rows); }
  }

  // With 8,193 rows to plan there is no run.
  lemma NoRun(st: Stream, a: Args)
    requires !CanRun(a)
    ensures !Runs(st, a)
  {
    hide Lawful, Drawn, Sort, PlantedIndices, PlanEnds;
    if Lawful(st) && ValidArgs(a) && a.traces < ID_SPACE {
      var d := Drawn(st, 0, a.traces, a.hours, {});
      HangsAt8193(st, PlantedIndices(st, d.2, Sort(d.0, StartsBefore), a.hours).1);
    }
  }

  lemma BaseIdAt(a: Args, m: nat, id: nat) returns (i: nat)
    requires Lawful(EARLY) && Runs(EARLY, a) && m <= a.traces && id in Drawn(EARLY, 0, m, a.hours, {}).1
    ensures var c := CorpusOf(EARLY, EARLY, a); i < |c.base.traces| <= |AllTraces(c)| && AllTraces(c)[i].id == id
  {
    hide Lawful, Drawn, Sort, PlantedIndices, PlanEnds, NeedlePlan, SavedAt, Planted, BaseRows, NoiseRows, NoisePhase,
         Flatten, Woven, MergeFrom, AllWellTimed, Sorted, DistinctIds;
    BaseFacts(EARLY, a);
    DrawnPrefix(EARLY, 0, m, a.traces, a.hours, {});
    var b := BasePhase(EARLY, a);
    assert id in b.seen;
    i :| 0 <= i < |b.traces| && b.traces[i].id == id;
  }

  // With one or two base traces, the cycling noise stream gives id 2.
  lemma NoiseIdAt(a: Args) returns (j: nat)
    requires Lawful(EARLY) && Runs(EARLY, a) && a.scale > 1 && a.traces <= 2
    ensures var c := CorpusOf(EARLY, EARLY, a);
            |c.base.traces| <= j < |AllTraces(c)| && AllTraces(c)[j].id == 2
  {
    hide Lawful, BasePhase, BaseRows, NoiseRows, Flatten, Woven, MergeFrom, AllWellTimed, Sorted, DistinctIds,
         NoisePhase;
    BaseFacts(EARLY, a);
    var seen := BasePhase(EARLY, a).seen;
    BaseSeen(a);
    var noise := NoisePhase(EARLY, a, seen).0;
    NoiseTwo(a, seen);
    var k :| 0 <= k < |noise| && noise[k].id == 2;
    j := |BasePhase(EARLY, a).traces| + k;
  }

  lemma BaseSeen(a: Args)
    requires Lawful(EARLY) && Runs(EARLY, a) && a.traces <= 2
    ensures 1 in BasePhase(EARLY, a).seen && 2 !in BasePhase(EARLY, a).seen
  {
    hide Lawful, Drawn, Sort, PlantedIndices, PlanEnds, NeedlePlan, SavedAt, Planted;
    if a.traces == 1 { EarlyOne(a.hours); } else { EarlyTwo(a.hours); }
  }

  lemma NoiseTwo(a: Args, seen: set<nat>)
    requires Lawful(EARLY) && ValidArgs(a) && |seen| == a.traces && a.scale > 1 && 1 in seen && 2 !in seen
    ensures 2 in Ids(NoisePhase(EARLY, a, seen).0)
  {
    hide Lawful, Drawn, DrawTrace, Sort, AllWellTimed, Sorted, DistinctIds, InFailingHour, Ids;
    NoiseFits(a);
    var n := NoiseCount(a);
    MulAtLeast(a.scale - 1, a.traces);
    DrawnStep(EARLY, 0, 0, a.hours, seen);
    DrawnStep(EARLY, 0, 1, a.hours, seen);
    EarlyFirst(0, a.hours, seen, 2);
    DrawnPrefix(EARLY, 0, 1, n, a.hours, seen);
    DrawnIds(EARLY, 0, n, a.hours, seen);
    DrawnSorted(EARLY, 0, n, a.hours, seen);
    var ts := Sort(Drawn(EARLY, 0, n, a.hours, seen).0, StartsBefore);
    assert SameTimes(ts, RelocatedAll(ts, a.hours));
    SameTimesFacts(ts, RelocatedAll(ts, a.hours), a.hours);
  }

  // Only a planted row hides a trace.
  lemma ShownWithoutPlant(a: Args)
    requires Lawful(EARLY) && Runs(EARLY, a)
    ensures CorpusOf(EARLY, EARLY, a).base.presentRow == -1 || !a.noiseOnly
  {
    hide Lawful, BasePhase, BaseRows, NoiseRows, Flatten, Woven, MergeFrom, AllWellTimed, Sorted, DistinctIds,
         NoisePhase;
    BaseFacts(EARLY, a);
  }

  // With two traces or more to show, the cycling streams give two of them one upper half.
  lemma ShareEarly(a: Args) returns (i: nat, j: nat)
    requires ValidArgs(a) && CanRun(a) && !OneShown(a)
    ensures Lawful(EARLY) && Runs(EARLY, a) && ShareTop(CorpusOf(EARLY, EARLY, a), a.shape.logs, i, j)
  {
    hide Lawful, Runs, CorpusOf, Drawn, AllTraces, LogRowsOf, CanRun;
    RunsEarly(a);
    var c := CorpusOf(EARLY, EARLY, a);
    EarlyOne(a.hours);
    i := BaseIdAt(a, 1, 1);
    ShownWithoutPlant(a);
    if a.traces == 1 {
      j := NoiseIdAt(a);
    } else {
      EarlyTwo(a.hours);
      j := BaseIdAt(a, 2, SecondId(a.hours));
      if Hidden(c, a.shape.logs, i) || Hidden(c, a.shape.logs, j) {
        var other := if Hidden(c, a.shape.logs, i) then j else i;
        var k;
        if a.traces == 2 {
          k := NoiseIdAt(a);
        } else {
          EarlyThree(a.hours);
          k := BaseIdAt(a, 3, ThirdId(a.hours));
        }
        i, j := other, k;
      }
    }
  }

  lemma OneShownApart(st: Stream, nst: Stream, a: Args)
    requires Runs(st, a) && Lawful(nst) && OneShown(a)
    ensures TopsApart(CorpusOf(st, nst, a), a.shape.logs)
  {
    hide Lawful, BasePhase, BaseRows, NoiseRows, Flatten, Woven, MergeFrom, AllWellTimed, Sorted, DistinctIds,
         NoisePhase, InCell, Top, Ids, PlanEnds, Drawn, Sort, PlantedIndices;
    BaseFacts(st, a);
    NoiseFacts(nst, a, BasePhase(st, a).seen);
    NoiseFits(a);
    var c := CorpusOf(st, nst, a);
    forall i: nat, j: nat ensures !ShareTop(c, a.shape.logs, i, j) {
      assert |AllTraces(c)| == a.scale * a.traces;
    }
  }

  // When more is shown, a run on the cycling streams records 1 for a list of one row that
  // the file holds twice.
  lemma OneRowFoundTwice(a: Args) returns (r: nat)
    requires ValidArgs(a) && CanRun(a) && !OneShown(a)
    ensures Lawful(EARLY) && Runs(EARLY, a)
    ensures var c := CorpusOf(EARLY, EARLY, a);
            PoolList(c.base, a.shape.logs, [r])
            && |RequestedAt(c.logs, ListedIds(c.base, a.shape.logs, [r]))| >= 2
  {
    hide Lawful, Runs, CorpusOf, ShareTop, Laid, RequestedAt, CanRun, OneShown;
    var i, j := ShareEarly(a);
    LogsLaid(EARLY, EARLY, a);
    r := ShareInexact(CorpusOf(EARLY, EARLY, a), a.shape.logs, i, j);
  }

  // in_request_id: all lists recount on every run if and only if no two traces, one of them
  // a base trace, show request ids, or there is no run at all.
  lemma RequestListsAlways(a: Args)
    requires ValidArgs(a)
    ensures (forall st, nst :: Runs(st, a) && Lawful(nst) ==> ListsExact(CorpusOf(st, nst, a), a.shape.logs))
            <==> OneShown(a) || !CanRun(a)
  {
    hide Lawful, Runs, CorpusOf, TopsApart, ListedIds, RequestedAt, PoolList, OneShown, ValidArgs, CanRun;
    if !CanRun(a) {
      forall st ensures !Runs(st, a) { NoRun(st, a); }
    } else if OneShown(a) {
      forall st, nst | Runs(st, a) && Lawful(nst) ensures ListsExact(CorpusOf(st, nst, a), a.shape.logs) {
        OneShownApart(st, nst, a);
        RequestListsIff(st, nst, a);
      }
    } else {
      var r := OneRowFoundTwice(a);
      assert !ListExact(CorpusOf(EARLY, EARLY, a), a.shape.logs, [r]);
      assert !ListsExact(CorpusOf(EARLY, EARLY, a), a.shape.logs);
    }
  }

  // Two traces of one log each are enough.
  lemma TwoTracesCollide() returns (r: nat)
    ensures var a := Args(2, Shape(1, 1), Hours(1, 0, true), 1, true);
            && Lawful(EARLY) && Runs(EARLY, a)
            && var c := CorpusOf(EARLY, EARLY, a);
               && PoolList(c.base, a.shape.logs, [r])
               && |RequestedAt(c.logs, ListedIds(c.base, a.shape.logs, [r]))| >= 2
  {
    hide Lawful, Runs, CorpusOf, ListedIds, RequestedAt, PoolList;
    r := OneRowFoundTwice(Args(2, Shape(1, 1), Hours(1, 0, true), 1, true));
  }
}
