/**
 The rows of one trace: its spans and its logs, and the margin that keeps every one of
 them in the trace's own hour.
 */
module CorpusEmit {
  import opened Wrappers
  import opened RandomStream
  import opened CorpusTraces
  import opened CorpusNeedles

  const CHILD_START_MAX_NS: nat := 2_000_000_000
  const SPAN_DUR_MAX_NS: nat := 1_000_000_000
  const LOG_OFFSET_MAX_NS: nat := 60_000_000_000
  const SPAN_NAMES: nat := 50
  const BODY_TEMPLATES: nat := 5
  // Half of the 64-bit values are odd.
  const SPAN_ID_HALF: nat := 0x8000_0000_0000_0000
  const LOW_64: nat := 0x1_0000_0000_0000_0000

  datatype Status = Unset | Fine | Error

  datatype Span = Span(traceId: nat, spanId: nat, parent: Option<nat>, name: nat,
                       start: int, end: int, service: nat, status: Status)

  // The planted request id, or the one made of the trace id's upper 64 bits and the
  // log's index in its trace.
  datatype RequestId = Present | OfLog(top: nat, index: nat)

  // The body is its template, duration and tag; the three needle columns follow the tag.
  datatype Log = Log(ts: int, template: nat, dur: nat, traceId: nat, service: nat,
                     request: RequestId, tag: Option<Needle>)

  // Output rows in writing order.
  class Sink<Row> {
    var rows: seq<Row>

    constructor ()
      ensures rows == []
    {
      rows := [];
    }

    method Add(row: Row)
      modifies this
      ensures rows == old(rows) + [row]
    {
      rows := rows + [row];
    }
  }

  // --- emit_trace ------------------------------------------------------------

  function SpanIds(spans: seq<Span>): set<nat> {
    set i | 0 <= i < |spans| :: spans[i].spanId
  }

  lemma {:induction false} SpanIdReached(st: Stream, p: nat, prior: seq<Span>)
    requires Lawful(st) && |prior| < SPAN_ID_HALF
    ensures Reaches(st, OddBits(SPAN_ID_HALF), p, SpanIds(prior))
  {
    SpanIdsCount(prior);
    var v := SpareOdd(SPAN_ID_HALF, SpanIds(prior));
    LawfulReaches(st, OddBits(SPAN_ID_HALF), p, SpanIds(prior), v);
  }

  lemma {:induction false} SpanIdsCount(spans: seq<Span>)
    ensures |SpanIds(spans)| <= |spans|
  {
    if spans != [] {
      var n := |spans| - 1;
      SpanIdsCount(spans[..n]);
      assert SpanIds(spans) == SpanIds(spans[..n]) + {spans[n].spanId};
    }
  }

  // The next span after `prior`, and the position after it. The first is the root.
  function NextSpan(st: Stream, p: nat, tr: Trace, prior: seq<Span>): (Span, nat)
    requires Lawful(st) && |prior| < SPAN_ID_HALF
  {
    SpanIdReached(st, p, prior);
    var s := |prior|;
    var (id, p1) := Outside(st, OddBits(SPAN_ID_HALF), p, SpanIds(prior));
    if s == 0 then
      var (dur, p2) := st.pull(Range(1, SPAN_DUR_MAX_NS), p1);
      var (name, p3) := st.pull(Range(0, SPAN_NAMES), p2);
      (Span(tr.id, id, None, name, tr.start, tr.start + dur, tr.service, if tr.error then Error else Fine), p3)
    else
      assert InSpace(Range(0, s), 0);
      var (k, p2) := st.pull(Range(0, s), p1);
      var (offset, p3) := st.pull(Range(1, CHILD_START_MAX_NS), p2);
      var (dur, p4) := st.pull(Range(1, SPAN_DUR_MAX_NS), p3);
      var (name, p5) := st.pull(Range(0, SPAN_NAMES), p4);
      (Span(tr.id, id, Some(prior[k].spanId), name, tr.start + offset, tr.start + offset + dur, tr.service, Unset), p5)
  }

  // The first n spans of a trace drawn from position p, and the position after them.
  function Spans(st: Stream, p: nat, tr: Trace, n: nat): (r: (seq<Span>, nat))
    requires Lawful(st) && n <= SPAN_ID_HALF
    ensures |r.0| == n
  {
    if n == 0 then ([], p)
    else
      var (prior, q) := Spans(st, p, tr, n - 1);
      var (span, q') := NextSpan(st, q, tr, prior);
      (prior + [span], q')
  }

  method EmitTrace(rng: Random, tr: Trace, spansPerTrace: nat, sink: Sink<Span>)
    requires Lawful(rng.stream) && spansPerTrace <= SPAN_ID_HALF
    modifies rng, sink
    ensures var (rows, q) := Spans(rng.stream, old(rng.pos), tr, spansPerTrace);
            sink.rows == old(sink.rows) + rows && rng.pos == q
  {
    ghost var st := rng.stream;
    var spans: seq<Span> := [];
    for s := 0 to spansPerTrace
      invariant (spans, rng.pos) == Spans(st, old(rng.pos), tr, s)
      invariant sink.rows == old(sink.rows) + spans
    {
      ghost var next := NextSpan(st, rng.pos, tr, spans);
      SpanIdReached(st, rng.pos, spans);
      var id := rng.DrawOutside(OddBits(SPAN_ID_HALF), SpanIds(spans));
      var parent, start := None, tr.start;
      if s > 0 {
        assert InSpace(Range(0, s), 0);
        ghost var at := rng.pos;
        var k := rng.Draw(Range(0, s));
        assert InSpace(Range(0, s), st.pull(Range(0, s), at).0);
        parent := Some(spans[k].spanId);
        var offset := rng.Draw(Range(1, CHILD_START_MAX_NS));
        start := tr.start + offset;
      }
      var dur := rng.Draw(Range(1, SPAN_DUR_MAX_NS));
      var status := if s > 0 then Unset else if tr.error then Error else Fine;
      var name := rng.Draw(Range(0, SPAN_NAMES));
      var span := Span(tr.id, id, parent, name, start, start + dur, tr.service, status);
      assert (span, rng.pos) == next;
      sink.Add(span);
      spans := spans + [span];
    }
  }

  // What a trace's spans are: one root carrying the trace's outcome, every other span
  // under an earlier one, distinct ids, and all of it inside the trace's hour.
  ghost predicate SpanTree(spans: seq<Span>, tr: Trace, hs: Hours) {
    && SpanRows(spans, tr, hs)
    && (forall i, j :: 0 <= i < j < |spans| ==> spans[i].spanId != spans[j].spanId)
    && (forall j :: 0 <= j < |spans| ==> Parented(spans, j))
  }

  ghost predicate SpanRows(spans: seq<Span>, tr: Trace, hs: Hours) {
    forall i :: 0 <= i < |spans| ==> SpanRow(spans[i], tr, hs) && (spans[i].parent.None? <==> i == 0)
  }

  ghost predicate SpanRow(s: Span, tr: Trace, hs: Hours) {
    && s.traceId == tr.id && s.service == tr.service
    && (s.parent.None? ==> s.start == tr.start && s.status == if tr.error then Error else Fine)
    && tr.start <= s.start < s.end
    && HourOf(s.start, hs) == HourOf(s.end, hs) == HourOf(tr.start, hs)
  }

  // Span j has no parent, or an earlier span of the trace as its parent.
  ghost predicate Parented(spans: seq<Span>, j: nat)
    requires j < |spans|
  {
    spans[j].parent.None? || exists i :: 0 <= i < j && spans[j].parent == Some(spans[i].spanId)
  }

  // Anything within the margin after a trace's start is in the trace's hour.
  lemma MarginKeepsHour(tr: Trace, hs: Hours, after: nat)
    requires WellTimed(tr, hs) && after < TRACE_MARGIN_NS
    ensures HourOf(tr.start + after, hs) == HourOf(tr.start, hs)
  {
  }

  lemma NextSpanFacts(st: Stream, p: nat, tr: Trace, prior: seq<Span>, hs: Hours)
    requires Lawful(st) && |prior| < SPAN_ID_HALF && WellTimed(tr, hs)
    ensures var s := NextSpan(st, p, tr, prior).0;
            && SpanRow(s, tr, hs) && s.spanId !in SpanIds(prior)
            && (s.parent.None? <==> prior == [])
            && (prior != [] ==> exists i :: 0 <= i < |prior| && s.parent == Some(prior[i].spanId))
  {
    var s := NextSpan(st, p, tr, prior).0;
    assert InSpace(Range(1, SPAN_DUR_MAX_NS), 1) && InSpace(Range(1, CHILD_START_MAX_NS), 1);
    assert prior != [] ==> InSpace(Range(0, |prior|), 0);
    assert 0 <= s.start - tr.start < CHILD_START_MAX_NS && 0 < s.end - s.start < SPAN_DUR_MAX_NS;
    MarginKeepsHour(tr, hs, s.start - tr.start);
    MarginKeepsHour(tr, hs, s.end - tr.start);
  }

  lemma ParentedAppend(prior: seq<Span>, s: Span, j: nat)
    requires j <= |prior|
    requires j < |prior| ==> Parented(prior, j)
    requires prior != [] ==> exists i :: 0 <= i < |prior| && s.parent == Some(prior[i].spanId)
    requires prior == [] ==> s.parent.None?
    ensures Parented(prior + [s], j)
  {
    var all := prior + [s];
    if all[j].parent.Some? {
      var i :| 0 <= i < j && all[j].parent == Some(prior[i].spanId);
      assert all[i] == prior[i];
    }
  }

  lemma {:induction false} SpansFacts(st: Stream, p: nat, tr: Trace, n: nat, hs: Hours)
    requires Lawful(st) && n <= SPAN_ID_HALF && WellTimed(tr, hs)
    ensures SpanTree(Spans(st, p, tr, n).0, tr, hs)
  {
    hide Lawful, NextSpan, SpanRow, WellTimed;
    if n > 0 {
      SpansFacts(st, p, tr, n - 1, hs);
      var (prior, q) := Spans(st, p, tr, n - 1);
      NextSpanFacts(st, q, tr, prior, hs);
      var s := NextSpan(st, q, tr, prior).0;
      forall i | 0 <= i < |prior| ensures prior[i].spanId != s.spanId { assert prior[i].spanId in SpanIds(prior); }
      assert Spans(st, p, tr, n).0 == prior + [s];
      forall j | 0 <= j < n ensures Parented(prior + [s], j) { ParentedAppend(prior, s, j); }
    }
  }

  // --- emit_logs -------------------------------------------------------------

  // Which base log rows carry a needle, and which carries the planted request id.
  datatype Marks = Marks(needleOf: map<nat, Needle>, presentRow: Option<int>)

  function TagOf(m: Marks, row: int): Option<Needle> {
    if row in m.needleOf then Some(m.needleOf[row]) else None
  }

  function RequestOf(m: Marks, row: int, id: nat, index: nat): RequestId {
    if m.presentRow == Some(row) then Present else OfLog(id / LOW_64, index)
  }

  function NextLog(st: Stream, p: nat, tr: Trace, index: nat, rowBase: int, m: Marks): (Log, nat) {
    var (offset, p1) := st.pull(Range(0, LOG_OFFSET_MAX_NS), p);
    var (dur, p2) := st.pull(Range(1, 5000), p1);
    var (template, p3) := st.pull(Range(0, BODY_TEMPLATES), p2);
    (Log(tr.start + offset, template, dur, tr.id, tr.service,
         RequestOf(m, rowBase + index, tr.id, index), TagOf(m, rowBase + index)), p3)
  }

  // The first n logs of a trace drawn from position p, and the position after them.
  function Logs(st: Stream, p: nat, tr: Trace, n: nat, rowBase: int, m: Marks): (r: (seq<Log>, nat))
    ensures |r.0| == n
  {
    if n == 0 then ([], p)
    else
      var (prior, q) := Logs(st, p, tr, n - 1, rowBase, m);
      var (log, q') := NextLog(st, q, tr, n - 1, rowBase, m);
      (prior + [log], q')
  }

  // The written positions of each tag.
  datatype Positions = Positions(rare: set<nat>, sparse: set<nat>, common: set<nat>) {
    function Add(v: Needle, k: nat): Positions {
      match v
      case Rare => this.(rare := rare + {k})
      case Sparse => this.(sparse := sparse + {k})
      case Common => this.(common := common + {k})
    }
  }

  function TaggedAt(logs: seq<Log>, v: Needle): set<nat> {
    set k: nat | k < |logs| && logs[k].tag == Some(v)
  }

  function Positioned(logs: seq<Log>): Positions {
    Positions(TaggedAt(logs, Rare), TaggedAt(logs, Sparse), TaggedAt(logs, Common))
  }

  lemma PositionedAppend(logs: seq<Log>, log: Log)
    ensures Positioned(logs + [log]) ==
            if log.tag.None? then Positioned(logs) else Positioned(logs).Add(log.tag.value, |logs|)
  {
    forall v: Needle
      ensures TaggedAt(logs + [log], v) ==
              if log.tag == Some(v) then TaggedAt(logs, v) + {|logs|} else TaggedAt(logs, v)
    {
      assert forall k :: 0 <= k < |logs| ==> (logs + [log])[k] == logs[k];
    }
  }

  // Emits the trace's logs and keeps the positions of every tagged row written so far.
  method EmitLogs(rng: Random, tr: Trace, logsPerTrace: nat, sink: Sink<Log>, rowBase: int, m: Marks, at: Positions)
    returns (at': Positions)
    requires at == Positioned(sink.rows)
    modifies rng, sink
    ensures var (rows, q) := Logs(rng.stream, old(rng.pos), tr, logsPerTrace, rowBase, m);
            sink.rows == old(sink.rows) + rows && rng.pos == q
    ensures at' == Positioned(sink.rows)
  {
    ghost var st := rng.stream;
    ghost var logs: seq<Log> := [];
    at' := at;
    for l := 0 to logsPerTrace
      invariant (logs, rng.pos) == Logs(st, old(rng.pos), tr, l, rowBase, m)
      invariant sink.rows == old(sink.rows) + logs
      invariant at' == Positioned(sink.rows)
    {
      ghost var next := NextLog(st, rng.pos, tr, l, rowBase, m);
      var row := rowBase + l;
      var offset := rng.Draw(Range(0, LOG_OFFSET_MAX_NS));
      var dur := rng.Draw(Range(1, 5000));
      var request := if m.presentRow == Some(row) then Present else OfLog(tr.id / LOW_64, l);
      var template := rng.Draw(Range(0, BODY_TEMPLATES));
      var tag := TagOf(m, row);
      var log := Log(tr.start + offset, template, dur, tr.id, tr.service, request, tag);
      assert (log, rng.pos) == next;
      PositionedAppend(sink.rows, log);
      if tag.Some? {
        at' := at'.Add(tag.value, |sink.rows|);
      }
      sink.Add(log);
      logs := logs + [log];
    }
  }

  // Log `index` of the trace: its hour is the trace's, its marks are its base row's.
  ghost predicate LogRow(log: Log, tr: Trace, hs: Hours, index: nat, rowBase: int, m: Marks) {
    && log.traceId == tr.id && log.service == tr.service
    && tr.start <= log.ts && HourOf(log.ts, hs) == HourOf(tr.start, hs)
    && log.tag == TagOf(m, rowBase + index) && log.request == RequestOf(m, rowBase + index, tr.id, index)
  }

  ghost predicate LogRows(logs: seq<Log>, tr: Trace, hs: Hours, rowBase: int, m: Marks) {
    forall i :: 0 <= i < |logs| ==> LogRow(logs[i], tr, hs, i, rowBase, m)
  }

  lemma {:induction false} LogsFacts(st: Stream, p: nat, tr: Trace, n: nat, rowBase: int, m: Marks, hs: Hours)
    requires Lawful(st) && WellTimed(tr, hs)
    ensures LogRows(Logs(st, p, tr, n, rowBase, m).0, tr, hs, rowBase, m)
  {
    hide Lawful, NextLog, LogRow, WellTimed;
    if n > 0 {
      LogsFacts(st, p, tr, n - 1, rowBase, m, hs);
      NextLogFacts(st, Logs(st, p, tr, n - 1, rowBase, m).1, tr, n - 1, rowBase, m, hs);
    }
  }

  lemma NextLogFacts(st: Stream, p: nat, tr: Trace, index: nat, rowBase: int, m: Marks, hs: Hours)
    requires Lawful(st) && WellTimed(tr, hs)
    ensures LogRow(NextLog(st, p, tr, index, rowBase, m).0, tr, hs, index, rowBase, m)
  {
    var log := NextLog(st, p, tr, index, rowBase, m).0;
    assert InSpace(Range(0, LOG_OFFSET_MAX_NS), 0);
    assert log.ts - tr.start < LOG_OFFSET_MAX_NS;
    MarginKeepsHour(tr, hs, log.ts - tr.start);
  }
}
