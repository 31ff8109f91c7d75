/**
 The traces of the corpus generator: the seeded draw, the planting of the failing
 cell in place, and the relocation of noise off that cell.
 */
module CorpusTraces {
  import opened Numbers
  import opened RandomStream
  import opened Sorting

  const HOUR_NS: int := 3_600_000_000_000
  const TRACE_MARGIN_NS: int := 120_000_000_000
  const SERVICES: nat := 20
  const FAILING_SERVICE: nat := 0
  const FAILING_CELL_TRACES: nat := 50
  const ID_SPACE: nat := 0x1_0000_0000_0000_0000_0000_0000_0000_0000

  datatype Trace = Trace(id: nat, start: int, service: nat, error: bool)

  // The hours of a run, the first of them, and whether traces are dealt evenly over them.
  datatype Hours = Hours(count: nat, first: int, even: bool)

  // Floor division, as in the source: HOUR_NS is positive.
  function HourOf(ts: int, hs: Hours): int {
    ts / HOUR_NS - hs.first
  }

  // A trace starts inside one of the run's hours, a margin before that hour's end.
  predicate WellTimed(t: Trace, hs: Hours) {
    0 <= HourOf(t.start, hs) < hs.count && t.start % HOUR_NS < HOUR_NS - TRACE_MARGIN_NS
  }

  function Ids(ts: seq<Trace>): set<nat> {
    set i | 0 <= i < |ts| :: ts[i].id
  }

  ghost predicate DistinctIds(ts: seq<Trace>) {
    forall i, j :: 0 <= i < j < |ts| ==> ts[i].id != ts[j].id
  }

  ghost predicate AllWellTimed(ts: seq<Trace>, hs: Hours) {
    forall i :: 0 <= i < |ts| ==> WellTimed(ts[i], hs)
  }

  // --- draw_traces -----------------------------------------------------------

  function FreshId(st: Stream, p: nat, seen: set<nat>): (r: (nat, nat))
    requires Lawful(st) && |seen| + 1 < ID_SPACE
    ensures r.0 !in seen && r.0 != 0
    ensures Reaches(st, Bits(ID_SPACE), p, seen + {0}) && r == Outside(st, Bits(ID_SPACE), p, seen + {0})
  {
    FreshIdReached(st, p, seen);
    Outside(st, Bits(ID_SPACE), p, seen + {0})
  }

  lemma FreshIdReached(st: Stream, p: nat, seen: set<nat>)
    requires Lawful(st) && |seen| + 1 < ID_SPACE
    ensures Reaches(st, Bits(ID_SPACE), p, seen + {0})
  {
    var v := Spare(ID_SPACE, seen + {0});
    LawfulReaches(st, Bits(ID_SPACE), p, seen + {0}, v);
  }

  function StartOf(hs: Hours, hour: nat, offset: nat): int {
    hs.first * HOUR_NS + hour * HOUR_NS + offset
  }

  lemma StartInHour(hs: Hours, hour: nat, offset: nat)
    requires offset < HOUR_NS
    ensures HourOf(StartOf(hs, hour, offset), hs) == hour
    ensures StartOf(hs, hour, offset) % HOUR_NS == offset
  {
    assert StartOf(hs, hour, offset) == (hs.first + hour) * HOUR_NS + offset;
  }

  function DrawTrace(st: Stream, p: nat, i: nat, hs: Hours, seen: set<nat>): (r: (Trace, nat))
    requires Lawful(st) && hs.count > 0 && |seen| + 1 < ID_SPACE
    ensures r.0.id !in seen && WellTimed(r.0, hs)
    ensures hs.even ==> HourOf(r.0.start, hs) == i % hs.count
  {
    var (id, p1) := FreshId(st, p, seen);
    assert InSpace(Range(0, hs.count), 0) && InSpace(Range(0, HOUR_NS - TRACE_MARGIN_NS), 0);
    var (hour, p2) := if hs.even then (i % hs.count, p1) else st.pull(Range(0, hs.count), p1);
    var (offset, p3) := st.pull(Range(0, HOUR_NS - TRACE_MARGIN_NS), p2);
    var (service, p4) := st.pull(Range(0, SERVICES), p3);
    var (error, p5) := st.chance(p4);
    assert hour < hs.count && offset < HOUR_NS - TRACE_MARGIN_NS;
    StartInHour(hs, hour, offset);
    (Trace(id, StartOf(hs, hour, offset), service, error), p5)
  }

  // The first n traces drawn from position p, the ids then seen, and the position after.
  function Drawn(st: Stream, p: nat, n: nat, hs: Hours, seen: set<nat>): (r: (seq<Trace>, set<nat>, nat))
    requires Lawful(st) && hs.count > 0 && |seen| + n < ID_SPACE
    ensures |r.0| == n && |r.1| == |seen| + n
  {
    if n == 0 then ([], seen, p)
    else
      var (ts, s, q) := Drawn(st, p, n - 1, hs, seen);
      var (t, q') := DrawTrace(st, q, n - 1, hs, s);
      (ts + [t], s + {t.id}, q')
  }

  lemma IdsAppend(ts: seq<Trace>, t: Trace)
    ensures Ids(ts + [t]) == Ids(ts) + {t.id}
  {
    assert forall i :: 0 <= i < |ts| ==> (ts + [t])[i] == ts[i];
    assert (ts + [t])[|ts|] == t;
  }

  // Ids are fresh and distinct.
  lemma {:induction false} DrawnIds(st: Stream, p: nat, n: nat, hs: Hours, seen: set<nat>)
    requires Lawful(st) && hs.count > 0 && |seen| + n < ID_SPACE
    ensures var r := Drawn(st, p, n, hs, seen);
            r.1 == seen + Ids(r.0) && DistinctIds(r.0) && Ids(r.0) !! seen
  {
    hide DrawTrace, Lawful, Drawn, DistinctIds;
    DrawnStep(st, p, n, hs, seen);
    if n == 0 {
      NoIds();
    } else {
      DrawnIds(st, p, n - 1, hs, seen);
      var (ts, s, q) := Drawn(st, p, n - 1, hs, seen);
      AppendFresh(ts, DrawTrace(st, q, n - 1, hs, s).0, seen);
    }
  }

  lemma DrawnStep(st: Stream, p: nat, n: nat, hs: Hours, seen: set<nat>)
    requires Lawful(st) && hs.count > 0 && |seen| + n < ID_SPACE
    ensures Drawn(st, p, n, hs, seen) ==
            if n == 0 then ([], seen, p)
            else
              var (ts, s, q) := Drawn(st, p, n - 1, hs, seen);
              var (t, q') := DrawTrace(st, q, n - 1, hs, s);
              (ts + [t], s + {t.id}, q')
  {
    hide DrawTrace, Lawful;
  }

  lemma NoIds()
    ensures Ids([]) == {} && DistinctIds([])
  {
  }

  lemma AppendFresh(ts: seq<Trace>, t: Trace, seen: set<nat>)
    requires DistinctIds(ts) && Ids(ts) !! seen && t.id !in seen + Ids(ts)
    ensures DistinctIds(ts + [t]) && Ids(ts + [t]) !! seen && Ids(ts + [t]) == Ids(ts) + {t.id}
  {
    IdsAppend(ts, t);
    forall i | 0 <= i < |ts| ensures ts[i].id != t.id { assert ts[i].id in Ids(ts); }
  }

  // Starts keep their margin, and an even deal goes round the hours.
  lemma {:induction false} DrawnTimes(st: Stream, p: nat, n: nat, hs: Hours, seen: set<nat>)
    requires Lawful(st) && hs.count > 0 && |seen| + n < ID_SPACE
    ensures var r := Drawn(st, p, n, hs, seen);
            && AllWellTimed(r.0, hs)
            && (hs.even ==> forall i :: 0 <= i < n ==> HourOf(r.0[i].start, hs) == i % hs.count)
  {
    hide DrawTrace, Lawful, Drawn, WellTimed;
    DrawnStep(st, p, n, hs, seen);
    if n > 0 {
      DrawnTimes(st, p, n - 1, hs, seen);
    }
  }

  predicate StartsBefore(a: Trace, b: Trace) {
    a.start < b.start || (a.start == b.start && a.id <= b.id)
  }

  method DrawTraces(rng: Random, n: nat, hs: Hours, seen: set<nat>) returns (traces: seq<Trace>, seen': set<nat>)
    requires Lawful(rng.stream) && hs.count > 0 && |seen| + n < ID_SPACE
    modifies rng
    ensures var d := Drawn(rng.stream, old(rng.pos), n, hs, seen);
            traces == Sort(d.0, StartsBefore) && seen' == d.1 && rng.pos == d.2
  {
    hide Drawn, Sort, Lawful;
    ghost var st, p := rng.stream, rng.pos;
    traces, seen' := [], seen;
    DrawnStep(st, p, 0, hs, seen);
    for i := 0 to n
      invariant (traces, seen', rng.pos) == Drawn(st, p, i, hs, seen)
    {
      DrawnStep(st, p, i + 1, hs, seen);
      FreshIdReached(st, rng.pos, seen');
      var id := rng.DrawOutside(Bits(ID_SPACE), seen' + {0});
      seen' := seen' + {id};
      var hour;
      if hs.even {
        hour := i % hs.count;
      } else {
        hour := rng.Draw(Range(0, hs.count));
      }
      var offset := rng.Draw(Range(0, HOUR_NS - TRACE_MARGIN_NS));
      var service := rng.Draw(Range(0, SERVICES));
      var error := rng.Chance();
      traces := traces + [Trace(id, StartOf(hs, hour, offset), service, error)];
    }
    traces := Sort(traces, StartsBefore);
  }

  // Two sequences with the same elements have the same ids, all distinct if either's are.
  lemma SameElements(s: seq<Trace>, t: seq<Trace>, hs: Hours)
    requires multiset(s) == multiset(t) && DistinctIds(s) && AllWellTimed(s, hs)
    ensures DistinctIds(t) && Ids(t) == Ids(s) && AllWellTimed(t, hs)
  {
    hide WellTimed;
    SameMembers(s, t);
    forall i, j | 0 <= i < j < |t| ensures t[i].id != t[j].id { DifferentIds(s, t, i, j); }
    assert forall i :: 0 <= i < |t| ==> t[i] in t;
    assert forall i :: 0 <= i < |s| ==> s[i] in s;
  }

  lemma DifferentIds(s: seq<Trace>, t: seq<Trace>, i: nat, j: nat)
    requires multiset(s) == multiset(t) && DistinctIds(s) && i < j < |t|
    ensures t[i].id != t[j].id
  {
    if t[i] == t[j] {
      TwiceIn(t, i, j);
      OnceIn(s, t[i]);
    } else {
      SameMembers(s, t);
      assert t[i] in t && t[j] in t;
      var a :| 0 <= a < |s| && s[a] == t[i];
      var b :| 0 <= b < |s| && s[b] == t[j];
      assert a < b || b < a;
    }
  }

  // What the rest of the generator may rely on about a drawn list of traces.
  lemma DrawnSorted(st: Stream, p: nat, n: nat, hs: Hours, seen: set<nat>)
    requires Lawful(st) && hs.count > 0 && |seen| + n < ID_SPACE
    ensures var d := Drawn(st, p, n, hs, seen).0; var ts := Sort(d, StartsBefore);
            && |ts| == n && Sorted(ts, StartsBefore) && DistinctIds(ts) && AllWellTimed(ts, hs)
            && Ids(ts) == Ids(d) && Ids(ts) !! seen
            && forall i, j :: 0 <= i < j < n ==>
                 ts[i].start < ts[j].start || (ts[i].start == ts[j].start && ts[i].id < ts[j].id)
  {
    hide Drawn, Sort, AllWellTimed, Lawful;
    DrawnIds(st, p, n, hs, seen);
    DrawnTimes(st, p, n, hs, seen);
    var d := Drawn(st, p, n, hs, seen).0;
    SortSorted(d, StartsBefore);
    SameElements(d, Sort(d, StartsBefore), hs);
    var ts := Sort(d, StartsBefore);
    assert forall i, j :: 0 <= i < j < n ==> StartsBefore(ts[i], ts[j]);
  }

  // --- the failing cell ------------------------------------------------------

  // The middle hour, one of the corpus.
  function FailingHour(hs: Hours): (h: int)
    ensures hs.count > 0 ==> 0 <= h < hs.count && hs.count - 1 <= 2 * h <= hs.count
  {
    hs.count / 2
  }

  predicate InFailingHour(t: Trace, hs: Hours) {
    HourOf(t.start, hs) == FailingHour(hs)
  }

  // An error of the failing service in the failing hour.
  predicate InCell(t: Trace, hs: Hours) {
    t.service == FAILING_SERVICE && t.error && InFailingHour(t, hs)
  }

  // The indices of the failing hour's traces, ascending.
  function InHour(ts: seq<Trace>, hs: Hours): (r: seq<nat>)
    ensures forall i :: i in r <==> 0 <= i < |ts| && InFailingHour(ts[i], hs)
    ensures Distinct(r)
  {
    if ts == [] then []
    else
      var n := |ts| - 1;
      var rest := InHour(ts[..n], hs);
      InHourMore(ts, rest, hs);
      if InFailingHour(ts[n], hs) then rest + [n] else rest
  }

  lemma InHourMore(ts: seq<Trace>, rest: seq<nat>, hs: Hours)
    requires ts != [] && Distinct(rest)
    requires forall i :: i in rest <==> 0 <= i < |ts| - 1 && InFailingHour(ts[..|ts| - 1][i], hs)
    ensures var n := |ts| - 1; var r := if InFailingHour(ts[n], hs) then rest + [n] else rest;
            Distinct(r) && forall i :: i in r <==> 0 <= i < |ts| && InFailingHour(ts[i], hs)
  {
    hide InFailingHour;
    var n := |ts| - 1;
    assert forall i :: 0 <= i < n ==> ts[..n][i] == ts[i];
    assert forall i :: i in rest + [n] <==> i in rest || i == n;
    forall i | 0 <= i < |rest| ensures rest[i] != n { assert rest[i] in rest; }
  }

  // Same traces at the same starts; only service and error may differ.
  ghost predicate SameTimes(s: seq<Trace>, t: seq<Trace>) {
    |s| == |t| && forall i :: 0 <= i < |s| ==> s[i].id == t[i].id && s[i].start == t[i].start
  }

  function Cleared(t: Trace, hs: Hours): Trace {
    if t.service == FAILING_SERVICE && InFailingHour(t, hs) then t.(error := false) else t
  }

  function Failing(t: Trace): Trace {
    t.(service := FAILING_SERVICE, error := true)
  }

  // The base traces after planting: trace i fails if planted, else is cleared from the cell.
  function Planted(ts: seq<Trace>, planted: seq<nat>, hs: Hours): (r: seq<Trace>)
    ensures |r| == |ts|
    ensures forall i :: 0 <= i < |ts| ==>
                          r[i] == if i in planted then Failing(Cleared(ts[i], hs)) else Cleared(ts[i], hs)
  {
    seq(|ts|, i requires 0 <= i < |ts| =>
      if i in planted then Failing(Cleared(ts[i], hs)) else Cleared(ts[i], hs))
  }

  function Leq(a: nat, b: nat): bool { a <= b }

  function Pick(s: seq<nat>, at: seq<nat>): (r: seq<nat>)
    requires forall i :: 0 <= i < |at| ==> at[i] < |s|
    ensures |r| == |at| && forall i :: 0 <= i < |at| ==> r[i] == s[at[i]]
  {
    seq(|at|, i requires 0 <= i < |at| => s[at[i]])
  }

  // Which indices are planted, and the position after the sample.
  function PlantedIndices(st: Stream, p: nat, ts: seq<Trace>, hs: Hours): (r: (seq<nat>, nat))
    requires Lawful(st)
  {
    var inHour := InHour(ts, hs);
    var k := Min(FAILING_CELL_TRACES, |inHour|);
    var (at, q) := st.sample(p, |inHour|, k);
    assert SampleOf(st.sample(p, |inHour|, k).0, |inHour|, k);
    (Sort(Pick(inHour, at), Leq), q)
  }

  // They are distinct, lie in the failing hour, and number 50 or the whole hour.
  lemma PlantedIndicesFacts(st: Stream, p: nat, ts: seq<Trace>, hs: Hours)
    requires Lawful(st)
    ensures var r := PlantedIndices(st, p, ts, hs).0;
            && |r| == Min(FAILING_CELL_TRACES, |InHour(ts, hs)|) && Distinct(r)
            && forall i :: i in r ==> 0 <= i < |ts| && InFailingHour(ts[i], hs)
  {
    var inHour := InHour(ts, hs);
    var k := Min(FAILING_CELL_TRACES, |inHour|);
    var at := st.sample(p, |inHour|, k).0;
    assert SampleOf(st.sample(p, |inHour|, k).0, |inHour|, k);
    var picked := Pick(inHour, at);
    PickDistinct(inHour, at);
    SortedDistinct(picked);
    forall i | i in Sort(picked, Leq) ensures i in inHour {
      assert i in multiset(Sort(picked, Leq)) && i in picked;
    }
  }

  lemma PickDistinct(s: seq<nat>, at: seq<nat>)
    requires Distinct(s) && SampleOf(at, |s|, |at|)
    ensures Distinct(Pick(s, at))
  {
    var r := Pick(s, at);
    forall i, j | 0 <= i < j < |r| ensures r[i] != r[j] {
      assert at[i] != at[j];
      assert at[i] < at[j] || at[j] < at[i];
    }
  }

  lemma {:induction false} DistinctMultiset(s: seq<nat>, x: nat)
    ensures Distinct(s) ==> multiset(s)[x] <= 1
    ensures (forall y :: multiset(s)[y] <= 1) ==> Distinct(s)
  {
    if s != [] {
      assert s == [s[0]] + s[1..];
      DistinctMultiset(s[1..], x);
      if Distinct(s) {
        assert forall i :: 0 <= i < |s[1..]| ==> s[1..][i] != s[0];
        assert s[0] !in s[1..];
      }
      if forall y :: multiset(s)[y] <= 1 {
        assert forall y :: multiset(s[1..])[y] <= multiset(s)[y];
        assert Distinct(s[1..]);
        assert multiset(s[1..])[s[0]] == 0;
        assert s[0] !in s[1..];
        assert forall j :: 1 <= j < |s| ==> s[j] == s[1..][j - 1];
      }
    }
  }

  lemma SortedDistinct(s: seq<nat>)
    requires Distinct(s)
    ensures Distinct(Sort(s, Leq))
  {
    forall y ensures multiset(s)[y] <= 1 { DistinctMultiset(s, y); }
    DistinctMultiset(Sort(s, Leq), 0);
  }

  // No background trace of the failing service errors in the failing hour.
  method ClearCell(base: array<Trace>, hs: Hours)
    modifies base
    ensures forall j :: 0 <= j < base.Length ==> base[j] == Cleared(old(base[j]), hs)
  {
    for i := 0 to base.Length
      invariant forall j :: 0 <= j < base.Length ==>
                              base[j] == if j < i then Cleared(old(base[j]), hs) else old(base[j])
    {
      if base[i].service == FAILING_SERVICE && InFailingHour(base[i], hs) {
        base[i] := base[i].(error := false);
      }
    }
  }

  method FailAt(base: array<Trace>, planted: seq<nat>)
    requires forall i :: 0 <= i < |planted| ==> planted[i] < base.Length
    modifies base
    ensures forall j :: 0 <= j < base.Length ==>
                          base[j] == if j in planted then Failing(old(base[j])) else old(base[j])
  {
    for n := 0 to |planted|
      invariant forall j :: 0 <= j < base.Length ==>
                              base[j] == if j in planted[..n] then Failing(old(base[j])) else old(base[j])
    {
      base[planted[n]] := base[planted[n]].(service := FAILING_SERVICE, error := true);
      assert planted[..n + 1] == planted[..n] + [planted[n]];
    }
    assert planted[..|planted|] == planted;
  }

  // The planting phase, in place on the array of base traces.
  method Plant(base: array<Trace>, rng: Random, hs: Hours) returns (planted: seq<nat>)
    requires Lawful(rng.stream)
    modifies base, rng
    ensures (planted, rng.pos) == PlantedIndices(rng.stream, old(rng.pos), old(base[..]), hs)
    ensures base[..] == Planted(old(base[..]), planted, hs)
  {
    var inHour := InHour(base[..], hs);
    ClearCell(base, hs);
    var k := Min(FAILING_CELL_TRACES, |inHour|);
    var at := rng.Sample(|inHour|, k);
    assert SampleOf(rng.stream.sample(old(rng.pos), |inHour|, k).0, |inHour|, k);
    planted := Sort(Pick(inHour, at), Leq);
    PlantedIndicesFacts(rng.stream, old(rng.pos), old(base[..]), hs);
    assert forall i :: 0 <= i < |planted| ==> planted[i] in planted;
    FailAt(base, planted);
  }

  // Exactly the planted traces are in the failing cell.
  lemma CellIsPlanted(ts: seq<Trace>, planted: seq<nat>, hs: Hours)
    requires forall i :: i in planted ==> 0 <= i < |ts| && InFailingHour(ts[i], hs)
    ensures var r := Planted(ts, planted, hs);
            SameTimes(r, ts) && forall i :: 0 <= i < |ts| ==> (InCell(r[i], hs) <==> i in planted)
  {
  }

  function Relocated(t: Trace, hs: Hours): Trace {
    if t.service == FAILING_SERVICE && InFailingHour(t, hs) then t.(service := FAILING_SERVICE + 1) else t
  }

  // The noise traces are moved off the failing cell, in place.
  method Relocate(noise: array<Trace>, hs: Hours)
    modifies noise
    ensures SameTimes(noise[..], old(noise[..]))
    ensures forall i :: 0 <= i < noise.Length ==> noise[i] == Relocated(old(noise[i]), hs) && !InCell(noise[i], hs)
  {
    for i := 0 to noise.Length
      invariant forall j :: 0 <= j < noise.Length ==>
                              noise[j] == if j < i then Relocated(old(noise[j]), hs) else old(noise[j])
    {
      if noise[i].service == FAILING_SERVICE && InFailingHour(noise[i], hs) {
        noise[i] := noise[i].(service := FAILING_SERVICE + 1);
      }
    }
  }
}
