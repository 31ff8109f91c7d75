/**
 The request ids of the written logs, and the id lists drawn over them: a list of rows
 recounts exactly unless two written traces share the upper half of their ids.
 */
module CorpusRequests {
  import opened Numbers
  import opened RandomStream
  import opened Sequences
  import opened Sorting
  import opened CorpusTraces
  import opened CorpusNeedles
  import opened CorpusEmit
  import opened CorpusMerge
  import opened CorpusRun
  import opened CorpusHours
  import opened CorpusAnswers

  // --- which row of the file is which trace's log ----------------------------

  // Every written trace, the base ones first.
  function AllTraces(c: Corpus): seq<Trace> { c.base.traces + c.noise }

  // The upper 64 bits of a trace id.
  function Top(t: Trace): nat { t.id / LOW_64 }

  // Log l of trace j of the run is the row that carries the planted request id.
  predicate PresentAt(c: Corpus, perTrace: nat, j: nat, l: nat) {
    j < |c.base.traces| && j * perTrace + l == c.base.presentRow
  }

  // Row k of the file is log l of trace j.
  predicate IsLog(c: Corpus, perTrace: nat, k: nat, j: nat, l: nat) {
    var all := AllTraces(c);
    && k < |c.logs| && j < |all| && l < perTrace && k % perTrace == l && c.logs[k].traceId == all[j].id
    && c.logs[k].request == if PresentAt(c, perTrace, j, l) then Present else OfLog(Top(all[j]), l)
  }

  lemma FileRow(st: Stream, nst: Stream, a: Args, k: nat) returns (j: nat)
    requires Runs(st, a) && Lawful(nst) && k < |CorpusOf(st, nst, a).logs| && a.shape.logs > 0
    ensures IsLog(CorpusOf(st, nst, a), a.shape.logs, k, j, k % a.shape.logs)
  {
    hide Lawful, Runs, WrittenBlocks, CorpusOf, HourOf, Flatten, Uniform, Owned, MarksOf;
    var c, w := CorpusOf(st, nst, a), WrittenBlocks(st, nst, a);
    BlocksOwned(st, nst, a);
    RowPlace(w.logs, a.shape.logs, k);
    var at, l := k / a.shape.logs, k % a.shape.logs;
    BlockFacts(st, nst, a, at);
    j := BlockRow(st, nst, a, at, l);
  }

  lemma BlockRow(st: Stream, nst: Stream, a: Args, at: nat, l: nat) returns (j: nat)
    requires Runs(st, a) && Lawful(nst)
    requires var w := WrittenBlocks(st, nst, a);
             at < |w.owners| && at < |w.logs| && l < |w.logs[at]|
    ensures var c := CorpusOf(st, nst, a); var log := WrittenBlocks(st, nst, a).logs[at][l];
            && j < |AllTraces(c)| && log.traceId == AllTraces(c)[j].id
            && log.request == if PresentAt(c, a.shape.logs, j, l) then Present else OfLog(Top(AllTraces(c)[j]), l)
  {
    hide Lawful, BasePhase, NoisePhase, Emitted, AllWellTimed, Sorted, DistinctIds, SpanTree, HourOf, InCell, Flatten,
         NeedleOf;
    BaseFacts(st, a);
    var b := BasePhase(st, a);
    var (noise, p) := NoisePhase(nst, a, b.seen);
    NoiseFacts(nst, a, b.seen);
    var w := WrittenBlocks(st, nst, a);
    MergeIndexed(b.traces, 0, noise, 0);
    match MergeFrom(b.traces, 0, noise, 0)[at] {
      case FromBase(i) =>
        j := i;
        EmittedFacts(st, b.pos, b.traces, i, a.shape, MarksOf(b), true, a.hours);
        assert LogRow(w.logs[at][l], b.traces[i], a.hours, l, RowBase(i, a.shape, true), MarksOf(b));
      case FromNoise(i) =>
        j := |b.traces| + i;
        EmittedFacts(nst, p, noise, i, a.shape, NO_MARKS, false, a.hours);
        assert LogRow(w.logs[at][l], noise[i], a.hours, l, RowBase(i, a.shape, false), NO_MARKS);
    }
  }

  lemma AllDistinct(st: Stream, nst: Stream, a: Args)
    requires Runs(st, a) && Lawful(nst)
    ensures DistinctIds(AllTraces(CorpusOf(st, nst, a))) && |CorpusOf(st, nst, a).base.traces| == a.traces
  {
    hide Lawful, BasePhase, BaseRows, NoiseRows, NoisePhase, Flatten, Woven, MergeFrom, Sorted, AllWellTimed, InCell;
    BaseFacts(st, a);
    var c := CorpusOf(st, nst, a);
    NoiseFacts(nst, a, c.base.seen);
    assert forall i :: 0 <= i < |c.base.traces| ==> c.base.traces[i].id in Ids(c.base.traces);
    assert forall i :: 0 <= i < |c.noise| ==> c.noise[i].id in Ids(c.noise);
  }

  lemma RowInFile(st: Stream, nst: Stream, a: Args, j: nat, l: nat) returns (k: nat)
    requires Runs(st, a) && Lawful(nst) && j < |AllTraces(CorpusOf(st, nst, a))| && l < a.shape.logs
    ensures IsLog(CorpusOf(st, nst, a), a.shape.logs, k, j, l)
  {
    hide Lawful, Runs, WrittenBlocks, CorpusOf, Flatten, AllWellTimed, Sorted, Owned, PresentAt;
    var c, w := CorpusOf(st, nst, a), WrittenBlocks(st, nst, a);
    AllDistinct(st, nst, a);
    OwnersDistinct(st, nst, a);
    BlocksOwned(st, nst, a);
    var at := OwnerAt(c, w.owners, j);
    UniformIndex(w.logs, a.shape.logs, at, l);
    k := at * a.shape.logs + l;
    BlockFacts(st, nst, a, at);
    assert c.logs[k].traceId == AllTraces(c)[j].id;
    ModOfMultiple(at, a.shape.logs, l);
    var j' := FileRow(st, nst, a, k);
    assert j' == j;
  }

  lemma OwnerAt(c: Corpus, owners: seq<Trace>, j: nat) returns (at: nat)
    requires j < |AllTraces(c)| && multiset(owners) == multiset(c.base.traces) + multiset(c.noise)
    ensures at < |owners| && owners[at] == AllTraces(c)[j]
  {
    var t := AllTraces(c)[j];
    assert t in multiset(owners) by {
      if j < |c.base.traces| { assert t in c.base.traces; } else { assert t == c.noise[j - |c.base.traces|]; }
    }
    assert t in owners;
    at :| 0 <= at < |owners| && owners[at] == t;
  }

  ghost predicate OwnedRow(log: Log, owners: seq<Trace>, at: int) {
    0 <= at < |owners| && log.traceId == owners[at].id
  }

  lemma LogOwnedBy(st: Stream, nst: Stream, a: Args, k: nat)
    requires Runs(st, a) && Lawful(nst) && k < |CorpusOf(st, nst, a).logs| && a.shape.logs > 0
    ensures OwnedRow(CorpusOf(st, nst, a).logs[k], WrittenBlocks(st, nst, a).owners, k / a.shape.logs)
  {
    hide Lawful, Runs, WrittenBlocks, CorpusOf, Flatten, Owned, Uniform, SpanTree, HourOf;
    BlocksOwned(st, nst, a);
    RowPlace(WrittenBlocks(st, nst, a).logs, a.shape.logs, k);
    BlockFacts(st, nst, a, k / a.shape.logs);
  }

  lemma OneRow(st: Stream, nst: Stream, a: Args, k: nat, k': nat, j: nat, l: nat)
    requires Runs(st, a) && Lawful(nst)
    requires var c := CorpusOf(st, nst, a); IsLog(c, a.shape.logs, k, j, l) && IsLog(c, a.shape.logs, k', j, l)
    ensures k == k'
  {
    hide Lawful, Runs, WrittenBlocks, CorpusOf, AllWellTimed, Sorted, PresentAt;
    var size := a.shape.logs;
    OwnersDistinct(st, nst, a);
    LogOwnedBy(st, nst, a, k);
    LogOwnedBy(st, nst, a, k');
    assert k / size == k' / size;
    hide *;
    Quotient(k, size);
    Quotient(k', size);
  }

  // The logs file holds each log of each written trace once, and nothing else.
  ghost predicate Laid(c: Corpus, perTrace: nat) {
    && perTrace > 0 && DistinctIds(AllTraces(c))
    && (forall k: nat :: k < |c.logs| ==> HasTrace(c, perTrace, k))
    && (forall j: nat, l: nat :: j < |AllTraces(c)| && l < perTrace ==> InFile(c, perTrace, j, l))
    && (forall k: nat, k': nat, j: nat, l: nat ::
          IsLog(c, perTrace, k, j, l) && IsLog(c, perTrace, k', j, l) ==> k == k')
  }

  ghost predicate HasTrace(c: Corpus, perTrace: nat, k: nat)
    requires perTrace > 0
  {
    exists j: nat :: IsLog(c, perTrace, k, j, k % perTrace)
  }

  ghost predicate InFile(c: Corpus, perTrace: nat, j: nat, l: nat) {
    exists k: nat :: IsLog(c, perTrace, k, j, l)
  }

  lemma LogsLaid(st: Stream, nst: Stream, a: Args)
    requires Runs(st, a) && Lawful(nst)
    ensures Laid(CorpusOf(st, nst, a), a.shape.logs)
  {
    hide Lawful, Runs, CorpusOf, IsLog, DistinctIds;
    var c, size := CorpusOf(st, nst, a), a.shape.logs;
    SizesPositive(st, a);
    AllDistinct(st, nst, a);
    forall k: nat | k < |c.logs| ensures HasTrace(c, size, k) {
      var j := FileRow(st, nst, a, k);
    }
    forall j: nat, l: nat | j < |AllTraces(c)| && l < size ensures InFile(c, size, j, l) {
      var k := RowInFile(st, nst, a, j, l);
    }
    forall k: nat, k': nat, j: nat, l: nat | IsLog(c, size, k, j, l) && IsLog(c, size, k', j, l) ensures k == k' {
      OneRow(st, nst, a, k, k', j, l);
    }
  }

  // --- lists of rows ---------------------------------------------------------

  // The request id recorded for a base row.
  function RowRequest(b: Base, perTrace: nat, r: nat): RequestId
    requires InPool(b, perTrace, r)
  {
    OfLog(Top(b.traces[r / perTrace]), r % perTrace)
  }

  // Base rows other than the planted one, none twice.
  ghost predicate PoolList(b: Base, perTrace: nat, rows: seq<nat>) {
    Distinct(rows) && forall i :: 0 <= i < |rows| ==> InPool(b, perTrace, rows[i])
  }

  predicate InPool(b: Base, perTrace: nat, r: nat) {
    perTrace > 0 && r / perTrace < |b.traces| && r != b.presentRow
  }

  function ListedIds(b: Base, perTrace: nat, rows: seq<nat>): set<RequestId>
    requires PoolList(b, perTrace, rows)
  {
    set i | 0 <= i < |rows| :: RowRequest(b, perTrace, rows[i])
  }

  // The file rows that `WHERE request_id IN (ids)` finds.
  function RequestedAt(logs: seq<Log>, ids: set<RequestId>): set<nat> {
    set k: nat | k < |logs| && logs[k].request in ids
  }

  // Each list of pool rows finds as many file rows as it has.
  ghost predicate ListsExact(c: Corpus, perTrace: nat) {
    forall rows :: PoolList(c.base, perTrace, rows) ==> ListExact(c, perTrace, rows)
  }

  ghost predicate ListExact(c: Corpus, perTrace: nat, rows: seq<nat>)
    requires PoolList(c.base, perTrace, rows)
  {
    |RequestedAt(c.logs, ListedIds(c.base, perTrace, rows))| == |rows|
  }

  // The trace's only log is the planted row, so it shows no request id of its own.
  predicate Hidden(c: Corpus, perTrace: nat, j: nat) {
    perTrace == 1 && PresentAt(c, perTrace, j, 0)
  }

  // Two traces, the first a base trace, that show the same upper half.
  predicate ShareTop(c: Corpus, perTrace: nat, i: nat, j: nat) {
    && i < |c.base.traces| && j < |AllTraces(c)| && i != j && !Hidden(c, perTrace, i) && !Hidden(c, perTrace, j)
    && Top(AllTraces(c)[i]) == Top(AllTraces(c)[j])
  }

  ghost predicate TopsApart(c: Corpus, perTrace: nat) {
    forall i: nat, j: nat :: !ShareTop(c, perTrace, i, j)
  }

  // A pool row is found at its own place only.
  lemma OneMatch(c: Corpus, perTrace: nat, r: nat) returns (k: nat)
    requires Laid(c, perTrace) && TopsApart(c, perTrace) && InPool(c.base, perTrace, r)
    ensures RequestedAt(c.logs, {RowRequest(c.base, perTrace, r)}) == {k}
    ensures IsLog(c, perTrace, k, r / perTrace, r % perTrace)
  {
    hide Top, DistinctIds;
    Quotient(r, perTrace);
    var i, l := r / perTrace, r % perTrace;
    assert i < |c.base.traces| && AllTraces(c)[i] == c.base.traces[i] && !PresentAt(c, perTrace, i, l);
    assert InFile(c, perTrace, i, l);
    k :| IsLog(c, perTrace, k, i, l);
    forall k': nat | k' in RequestedAt(c.logs, {RowRequest(c.base, perTrace, r)}) ensures k' == k {
      assert HasTrace(c, perTrace, k');
      var j: nat :| IsLog(c, perTrace, k', j, k' % perTrace);
      assert c.logs[k'].request == OfLog(Top(AllTraces(c)[i]), l);
      assert k' % perTrace == l;
      assert !ShareTop(c, perTrace, i, j);
      assert j == i;
    }
  }

  lemma {:induction false} ApartExact(c: Corpus, perTrace: nat, rows: seq<nat>)
    requires Laid(c, perTrace) && TopsApart(c, perTrace) && PoolList(c.base, perTrace, rows)
    ensures ListExact(c, perTrace, rows)
  {
    hide Laid, TopsApart, IsLog, RequestedAt, InPool;
    if rows == [] {
      assert ListedIds(c.base, perTrace, rows) == {};
      NoneRequested(c.logs);
    } else {
      var n := |rows| - 1;
      ApartExact(c, perTrace, rows[..n]);
      var k := OneMatch(c, perTrace, rows[n]);
      ListedAppend(c.base, perTrace, rows);
      RequestedUnion(c.logs, ListedIds(c.base, perTrace, rows[..n]), {RowRequest(c.base, perTrace, rows[n])});
      NotBefore(c, perTrace, rows, k);
    }
  }

  lemma NoneRequested(logs: seq<Log>)
    ensures RequestedAt(logs, {}) == {}
  {
  }

  lemma ListedAppend(b: Base, perTrace: nat, rows: seq<nat>)
    requires rows != [] && PoolList(b, perTrace, rows)
    ensures PoolList(b, perTrace, rows[..|rows| - 1])
    ensures ListedIds(b, perTrace, rows)
            == ListedIds(b, perTrace, rows[..|rows| - 1]) + {RowRequest(b, perTrace, rows[|rows| - 1])}
  {
    hide InPool, RowRequest;
  }

  lemma NotBefore(c: Corpus, perTrace: nat, rows: seq<nat>, k: nat)
    requires Laid(c, perTrace) && TopsApart(c, perTrace) && PoolList(c.base, perTrace, rows) && rows != []
    requires var r := rows[|rows| - 1]; IsLog(c, perTrace, k, r / perTrace, r % perTrace)
    ensures PoolList(c.base, perTrace, rows[..|rows| - 1])
    ensures k !in RequestedAt(c.logs, ListedIds(c.base, perTrace, rows[..|rows| - 1]))
  {
    hide Laid, TopsApart, IsLog, InPool, RowRequest;
    var n := |rows| - 1;
    forall i | 0 <= i < n && k < |c.logs| ensures c.logs[k].request != RowRequest(c.base, perTrace, rows[i]) {
      var k' := OneMatch(c, perTrace, rows[i]);
      RowsApart(c, perTrace, k', k, rows[i], rows[n]);
      assert k !in RequestedAt(c.logs, {RowRequest(c.base, perTrace, rows[i])});
    }
  }

  lemma RequestedUnion(logs: seq<Log>, s: set<RequestId>, t: set<RequestId>)
    ensures RequestedAt(logs, s + t) == RequestedAt(logs, s) + RequestedAt(logs, t)
  {
  }

  lemma RowsApart(c: Corpus, perTrace: nat, k: nat, k': nat, r: nat, r': nat)
    requires Laid(c, perTrace) && r != r'
    requires IsLog(c, perTrace, k, r / perTrace, r % perTrace) && IsLog(c, perTrace, k', r' / perTrace, r' % perTrace)
    ensures k != k'
  {
    hide Laid, IsLog;
    assert perTrace > 0 by { PositiveRows(c, perTrace); }
    Quotient(r, perTrace);
    Quotient(r', perTrace);
    LogsApart(c, perTrace, k, k', r / perTrace, r' / perTrace, r % perTrace, r' % perTrace);
  }

  lemma PositiveRows(c: Corpus, perTrace: nat)
    requires Laid(c, perTrace)
    ensures perTrace > 0
  {
  }

  lemma LogsApart(c: Corpus, perTrace: nat, k: nat, k': nat, j: nat, j': nat, l: nat, l': nat)
    requires Laid(c, perTrace) && (j != j' || l != l')
    requires IsLog(c, perTrace, k, j, l) && IsLog(c, perTrace, k', j', l')
    ensures k != k'
  {
    if j != j' {
      assert j < j' || j' < j;
      assert AllTraces(c)[j].id != AllTraces(c)[j'].id;
    }
  }

  // A log index at which neither of two traces carries the planted id.
  lemma FreeIndex(c: Corpus, perTrace: nat, i: nat, j: nat) returns (l: nat)
    requires perTrace > 0 && i != j && !Hidden(c, perTrace, i) && !Hidden(c, perTrace, j)
    ensures l < perTrace && !PresentAt(c, perTrace, i, l) && !PresentAt(c, perTrace, j, l)
  {
    l := 0;
    if perTrace > 1 && (PresentAt(c, perTrace, i, 0) || PresentAt(c, perTrace, j, 0)) {
      l := 1;
      OtherTrace(i, j, perTrace);
    }
  }

  lemma OtherTrace(i: nat, j: nat, perTrace: nat)
    requires i != j && perTrace > 1
    ensures i * perTrace != j * perTrace + 1 && j * perTrace != i * perTrace + 1
  {
    assert (i - j) * perTrace == i * perTrace - j * perTrace;
    if (i - j) * perTrace == 1 { SmallMultiple(i - j, perTrace, 1); }
    if (i - j) * perTrace == -1 { SmallMultiple(i - j, perTrace, -1); }
  }

  // Two traces with one upper half: a list of one row finds two.
  lemma ShareInexact(c: Corpus, perTrace: nat, i: nat, j: nat) returns (r: nat)
    requires Laid(c, perTrace) && ShareTop(c, perTrace, i, j)
    ensures PoolList(c.base, perTrace, [r]) && r / perTrace == i
    ensures |RequestedAt(c.logs, ListedIds(c.base, perTrace, [r]))| >= 2
  {
    hide Top, DistinctIds;
    var l := FreeIndex(c, perTrace, i, j);
    r := i * perTrace + l;
    Place(i, perTrace, l);
    assert InFile(c, perTrace, i, l) && InFile(c, perTrace, j, l);
    var k: nat :| IsLog(c, perTrace, k, i, l);
    var k': nat :| IsLog(c, perTrace, k', j, l);
    assert [r][0] == r;
    assert AllTraces(c)[i] == c.base.traces[i];
    assert RowRequest(c.base, perTrace, r) in ListedIds(c.base, perTrace, [r]);
    var found := RequestedAt(c.logs, ListedIds(c.base, perTrace, [r]));
    assert k in found && k' in found;
    LogsApart(c, perTrace, k, k', i, j, l, l);
    assert found == found - {k, k'} + {k, k'};
  }

  lemma Place(i: nat, perTrace: nat, l: nat)
    requires l < perTrace
    ensures (i * perTrace + l) / perTrace == i && (i * perTrace + l) % perTrace == l
  {
    ModOfMultiple(i, perTrace, l);
    var r := i * perTrace + l;
    Quotient(r, perTrace);
    assert (r / perTrace - i) * perTrace == 0;
    SmallMultiple(r / perTrace - i, perTrace, 0);
  }

  // in_request_id: in every run, every list of distinct rows other than the planted one
  // recounts to its length if and only if no base trace shares the upper half of its id
  // with another written trace. A trace whose only log is the planted row does not matter.
  lemma RequestListsIff(st: Stream, nst: Stream, a: Args)
    requires Runs(st, a) && Lawful(nst)
    ensures ListsExact(CorpusOf(st, nst, a), a.shape.logs) <==> TopsApart(CorpusOf(st, nst, a), a.shape.logs)
  {
    hide Lawful, Runs, CorpusOf, Laid, ShareTop, RequestedAt;
    var c := CorpusOf(st, nst, a);
    LogsLaid(st, nst, a);
    if TopsApart(c, a.shape.logs) {
      forall rows | PoolList(c.base, a.shape.logs, rows) ensures ListExact(c, a.shape.logs, rows) {
        ApartExact(c, a.shape.logs, rows);
      }
    } else {
      var i: nat, j: nat :| ShareTop(c, a.shape.logs, i, j);
      var r := ShareInexact(c, a.shape.logs, i, j);
      assert !ListExact(c, a.shape.logs, [r]);
    }
  }

  // --- the drawn lists -------------------------------------------------------

  // The rows of drawn pool indices.
  function PoolRows(list: seq<nat>, present: int): (rows: seq<nat>)
    ensures |rows| == |list| && forall i :: 0 <= i < |list| ==> rows[i] == PoolRow(list[i], present)
  {
    seq(|list|, i requires 0 <= i < |list| => PoolRow(list[i], present))
  }

  lemma PoolRowsListed(b: Base, a: Args, list: seq<nat>)
    requires ValidArgs(a) && |b.traces| == a.traces && -1 <= b.presentRow < LogRowsOf(a)
    requires LogRowsOf(a) > 0 && SampleOf(list, PoolSize(LogRowsOf(a), b.presentRow), |list|)
    ensures PoolList(b, a.shape.logs, PoolRows(list, b.presentRow))
  {
    hide LogRowsOf;
    var rows, n := PoolRows(list, b.presentRow), LogRowsOf(a);
    PoolEnumerates(n, b.presentRow);
    forall i | 0 <= i < |rows| ensures InPool(b, a.shape.logs, rows[i]) {
      assert Pooled(rows[i], n, b.presentRow);
      RowBelow(a, rows[i]);
    }
    forall i, j | 0 <= i < j < |rows| ensures rows[i] != rows[j] {
      assert list[i] < list[j] || list[j] < list[i];
    }
  }

  lemma RowBelow(a: Args, r: nat)
    requires ValidArgs(a) && r < LogRowsOf(a)
    ensures r / a.shape.logs < a.traces
  {
    BlockBelow(r, a.shape.logs, a.traces);
  }

  // What is recorded for a list of pool rows is what the file holds: the ids differ, each
  // is found once, and together they find as many rows as were drawn.
  ghost predicate Recounts(c: Corpus, perTrace: nat, rows: seq<nat>)
    requires PoolList(c.base, perTrace, rows)
  {
    && |ListedIds(c.base, perTrace, rows)| == |rows| && ListExact(c, perTrace, rows)
    && forall id :: id in ListedIds(c.base, perTrace, rows) ==> |RequestedAt(c.logs, {id})| == 1
  }

  lemma ApartRecounts(c: Corpus, perTrace: nat, rows: seq<nat>)
    requires Laid(c, perTrace) && TopsApart(c, perTrace) && PoolList(c.base, perTrace, rows)
    ensures Recounts(c, perTrace, rows)
  {
    hide Laid, TopsApart, IsLog, RequestedAt, RowRequest;
    ApartExact(c, perTrace, rows);
    ApartDistinct(c, perTrace, rows);
    forall id | id in ListedIds(c.base, perTrace, rows) ensures |RequestedAt(c.logs, {id})| == 1 {
      var i :| 0 <= i < |rows| && id == RowRequest(c.base, perTrace, rows[i]);
      var k := OneMatch(c, perTrace, rows[i]);
    }
  }

  lemma {:induction false} ApartDistinct(c: Corpus, perTrace: nat, rows: seq<nat>)
    requires Laid(c, perTrace) && TopsApart(c, perTrace) && PoolList(c.base, perTrace, rows)
    ensures |ListedIds(c.base, perTrace, rows)| == |rows|
  {
    hide Laid, TopsApart, IsLog, RowRequest, InPool;
    if rows != [] {
      var n := |rows| - 1;
      ListedAppend(c.base, perTrace, rows);
      ApartDistinct(c, perTrace, rows[..n]);
      var k := OneMatch(c, perTrace, rows[n]);
      assert k in RequestedAt(c.logs, {RowRequest(c.base, perTrace, rows[n])});
      NotBefore(c, perTrace, rows, k);
    }
  }

  // in_request_id.<size> and in_request_id.1001: a drawn list has the recorded number of
  // distinct rows, and recounts when no upper half is shared.
  lemma RowListsExact(st: Stream, nst: Stream, a: Args, k: nat)
    requires Runs(st, a) && Lawful(nst) && k < |IN_SIZES|
    ensures LogRowsOf(a) > 0
    ensures var c := CorpusOf(st, nst, a); var pool := PoolSize(LogRowsOf(a), c.base.presentRow);
            var d := DrawingsOf(st, c.pos, a.traces, pool);
            var rows := PoolRows(d.rowLists[k], c.base.presentRow);
            var control := PoolRows(WithExtra(d.rowLists[3], d.extraRow), c.base.presentRow);
            && |rows| == Min(IN_SIZES[k], pool) && |control| == Min(IN_SIZES[3] + 1, pool)
            && PoolList(c.base, a.shape.logs, rows) && PoolList(c.base, a.shape.logs, control)
            && (TopsApart(c, a.shape.logs) ==>
                  Recounts(c, a.shape.logs, rows) && Recounts(c, a.shape.logs, control))
  {
    hide Lawful, BasePhase, BaseRows, NoiseRows, NoisePhase, Flatten, Woven, MergeFrom, Sorted, AllWellTimed,
         DrawnLists, Outside, TopsApart, Recounts, LogRowsOf, ExtraOutside, PoolSize, PoolList, Ids, DistinctIds;
    RowsPositive(a);
    BaseFacts(st, a);
    var c := CorpusOf(st, nst, a);
    var pool := PoolSize(LogRowsOf(a), c.base.presentRow);
    var p := DrawnLists(st, c.pos, a.traces, IN_SIZES).1;
    DrawnListsFacts(st, c.pos, a.traces, IN_SIZES, 3);
    DrawnListsFacts(st, p, pool, IN_SIZES, k);
    DrawnListsFacts(st, p, pool, IN_SIZES, 3);
    var d := DrawingsOf(st, c.pos, a.traces, pool);
    var p2 := DrawnLists(st, p, pool, IN_SIZES).1;
    ControlSample(st, ExtraOutside(st, p2, a.traces, d.traceLists[3]).1, pool, d.rowLists[3]);
    PoolRowsListed(c.base, a, d.rowLists[k]);
    PoolRowsListed(c.base, a, WithExtra(d.rowLists[3], d.extraRow));
    if TopsApart(c, a.shape.logs) {
      LogsLaid(st, nst, a);
      ApartRecounts(c, a.shape.logs, PoolRows(d.rowLists[k], c.base.presentRow));
      ApartRecounts(c, a.shape.logs, PoolRows(WithExtra(d.rowLists[3], d.extraRow), c.base.presentRow));
    }
  }
}
