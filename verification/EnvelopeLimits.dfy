/**
 A report that warns about itself: an envelope built from one report whose every figure is
 negative does not contain that report.
 */
module EnvelopeLimits {
  import opened BenchRun
  import opened Envelope
  import opened EnvelopeCompare
  import opened Sorting
  import opened Wrappers

  // A complete report with the value v for every figure.
  function Quantiles(v: real): Json { Obj(map["p50" := Num(v), "p95" := Num(v), "p99" := Num(v)]) }

  function Ingest(v: real): Json { Obj(map["strict_ack_latency_ms" := Quantiles(v), "accepted_points" := Num(v)]) }

  function Query(v: real): Json {
    Obj(map["warm_latency_ms" := Quantiles(v), "cold_latency_ms" := Quantiles(v), "matched_series" := Num(v)])
  }

  function Requests(v: real): Json {
    Obj(map["put" := Num(v), "get" := Num(v), "list" := Num(v),
            "put_attempts" := Num(v), "get_attempts" := Num(v), "list_attempts" := Num(v)])
  }

  function Volumes(v: real): Json { Obj(map["written" := Num(v), "read" := Num(v)]) }

  const HOST: Json := Obj(map["git_commit" := Json.Text("c"), "toolchain" := Json.Text("t")])

  function LevelReport(v: real): Json {
    Obj(map["environment" := HOST, "ingest" := Ingest(v), "query" := Query(v), "s3_requests" := Requests(v),
            "bytes" := Volumes(v)])
  }

  lemma Sections(v: real)
    ensures var r := LevelReport(v);
            && Get(r, "environment") == HOST && Get(r, "ingest") == Ingest(v) && Get(r, "query") == Query(v)
            && Get(r, "s3_requests") == Requests(v) && Get(r, "bytes") == Volumes(v)
  {
  }

  lemma QuantileMembers(v: real, q: string)
    requires q in QUANTILES
    ensures Get(Quantiles(v), q) == Num(v)
  {
  }

  lemma RequestMembers(v: real, q: string)
    requires q in REQUESTS
    ensures Get(Requests(v), q) == Num(v)
  {
  }

  lemma VolumeMembers(v: real, q: string)
    requires q in VOLUMES
    ensures Get(Volumes(v), q) == Num(v)
  {
  }

  // Every figure of the report is v.
  lemma LevelFigures(v: real, k: nat)
    requires k < 17
    ensures Dig(LevelReport(v), Figures()[k].report) == Num(v)
  {
    hide Dig, Get, LevelReport, Quantiles, Requests, Volumes;
    Sections(v);
    LevelParts(v);
    var r := LevelReport(v);
    if k < 3 {
      DigThree(r, "ingest", "strict_ack_latency_ms", QUANTILES[k]);
      QuantileMembers(v, QUANTILES[k]);
    } else if k < 6 {
      DigThree(r, "query", "warm_latency_ms", QUANTILES[k - 3]);
      QuantileMembers(v, QUANTILES[k - 3]);
    } else if k == 6 {
      DigThree(r, "query", "cold_latency_ms", "p50");
      QuantileMembers(v, "p50");
    } else if k < 13 {
      DigTwo(r, "s3_requests", REQUESTS[k - 7]);
      RequestMembers(v, REQUESTS[k - 7]);
    } else if k < 15 {
      DigTwo(r, "bytes", VOLUMES[14 - k]);
      VolumeMembers(v, VOLUMES[14 - k]);
    }
  }

  lemma LevelParts(v: real)
    ensures var r := LevelReport(v);
            && Dig(r, ["ingest", "strict_ack_latency_ms"]) == Quantiles(v)
            && Dig(r, ["query", "warm_latency_ms"]) == Quantiles(v)
            && Dig(r, ["query", "cold_latency_ms"]) == Quantiles(v)
            && Dig(r, ["ingest", "accepted_points"]) == Num(v) && Dig(r, ["query", "matched_series"]) == Num(v)
            && Dig(r, ["s3_requests"]) == Requests(v) && Dig(r, ["bytes"]) == Volumes(v)
            && Dig(r, ["environment", "git_commit"]) == Json.Text("c")
            && Dig(r, ["environment", "toolchain"]) == Json.Text("t")
  {
    hide Dig, LevelReport, Quantiles;
    var r := LevelReport(v);
    Sections(v);
    DigTwo(r, "ingest", "strict_ack_latency_ms");
    DigTwo(r, "query", "warm_latency_ms");
    DigTwo(r, "query", "cold_latency_ms");
    DigTwo(r, "ingest", "accepted_points");
    DigTwo(r, "query", "matched_series");
    DigOne(r, "s3_requests");
    DigOne(r, "bytes");
    DigTwo(r, "environment", "git_commit");
    DigTwo(r, "environment", "toolchain");
  }

  lemma LevelEntry(id: int, date: string, v: real)
    ensures RunEntry(id, date, LevelReport(v)).Some? && EnvironmentOf(LevelReport(v)).Some?
  {
    hide Dig, Get, LevelReport, Quantiles, Requests, Volumes, Assemble;
    Sections(v);
    LevelParts(v);
    LevelFigures(v, 6);
    forall i | 0 <= i < |QUANTILES| ensures !Get(Quantiles(v), QUANTILES[i]).Null? { QuantileMembers(v, QUANTILES[i]); }
    forall i | 0 <= i < |REQUESTS| ensures !Get(Requests(v), REQUESTS[i]).Null? { RequestMembers(v, REQUESTS[i]); }
    forall i | 0 <= i < |VOLUMES| ensures !Get(Volumes(v), VOLUMES[i]).Null? { VolumeMembers(v, VOLUMES[i]); }
  }

  // One run with a number for every figure makes an envelope of single points.
  lemma {:induction false} OneRunEnvelope(run: Json, figures: seq<Figure>)
    requires forall k :: 0 <= k < |figures| ==> Number(Dig(run, figures[k].run)).Some?
    ensures EnvelopeOf([run], figures).Ok?
    ensures var env := EnvelopeOf([run], figures).value; forall name :: name in env ==> env[name].min == env[name].max
  {
    hide Dig, Number, Least;
    if figures != [] {
      var n := |figures| - 1;
      OneRunEnvelope(run, figures[..n]);
      var v := Values([run], figures[n].run);
      assert [run][0] == run && v.Some? && |v.value| == 1;
      assert Least(v.value, UpTo) == v.value[0] && Least(v.value, DownTo) == v.value[0];
    }
  }

  lemma GatherOne(input: Input)
    requires EnvironmentOf(input.report).Some? && RunEntry(input.id, input.date, input.report).Some?
    ensures Gather([input])
            == Ok((EnvironmentOf(input.report), [RunEntry(input.id, input.date, input.report).value]))
  {
    hide EnvironmentOf, RunEntry;
    var none: seq<Input> := [];
    assert [input][..0] == none && Gather(none) == Ok((None, []));
    var run := RunEntry(input.id, input.date, input.report).value;
    assert [] + [run] == [run];
  }

  lemma LevelSummary(id: int, date: string, v: real)
    ensures Summary([Input(id, date, LevelReport(v))]).Ok?
  {
    hide Figures, Dig, LevelReport, RunEntry, EnvironmentOf, EnvelopeOf, Sort;
    var input := Input(id, date, LevelReport(v));
    LevelEntry(id, date, v);
    var run := RunEntry(id, date, LevelReport(v)).value;
    GatherOne(input);
    forall k | 0 <= k < |Figures()| ensures Number(Dig(run, Figures()[k].run)).Some? {
      RunAgrees(id, date, LevelReport(v), k);
      LevelFigures(v, k);
    }
    OneRunEnvelope(run, Figures());
    SortOne(run);
  }

  lemma SortOne(run: Json)
    ensures Sort([run], ByDate) == [run]
  {
    var s := Sort([run], ByDate);
    assert multiset(s) == multiset([run]);
    assert |s| == |multiset(s)| == 1;
    assert s[0] in multiset(s);
  }

  // With usable bounds for every figure a comparison warns or is clean; it does not refuse.
  lemma {:induction false} NoRefusal(stored: map<string, Bounds>, report: Json, figures: seq<Figure>)
    requires forall k :: 0 <= k < |figures| ==> Usable(stored, figures[k])
    ensures Warnings(stored, report, figures).Ok?
  {
    hide Dig, Outside, Number;
    if figures != [] {
      var n := |figures| - 1;
      assert Usable(stored, figures[n]);
      NoRefusal(stored, report, figures[..n]);
    }
  }

  ghost predicate Usable(stored: map<string, Bounds>, f: Figure) {
    f.name in stored && (f.kind == Exact ==> stored[f.name].min == stored[f.name].max)
  }

  lemma LevelEnvironment(v: real)
    ensures Workload(Get(LevelReport(v), "environment")).Some?
  {
    hide LevelReport;
    Sections(v);
  }

  // With every figure at -1 the report is summarised, and then warned about: its first
  // figure is out of its own band.
  lemma NegativeReportWarns(id: int, date: string)
    ensures var input := Input(id, date, LevelReport(-1.0));
            && Summary([input]).Ok?
            && var r := Comparison(Summary([input]).value, input.report);
               r.Ok? && Figures()[0].name in r.value
  {
    hide Summary, Figures, LevelReport, Dig, Get, Workload, CheckEnvironment, Warnings, Limit;
    var input := Input(id, date, LevelReport(-1.0));
    var inputs := [input];
    LevelSummary(id, date, -1.0);
    var doc := Summary(inputs).value;
    OwnDocument(inputs, 0);
    LevelEnvironment(-1.0);
    assert inputs[0] == input;
    forall k | 0 <= k < |Figures()| ensures Usable(doc.envelope, Figures()[k]) { SummaryCovers(inputs, k); }
    NoRefusal(doc.envelope, input.report, Figures());
    SummaryCovers(inputs, 0);
    LevelFigures(-1.0, 0);
    FirstIsLatency();
    FiguresDistinct();
    WarnsExactly(doc.envelope, input.report, Figures(), 0);
  }

  lemma FirstIsLatency()
    ensures Figures()[0].kind == Latency
  {
  }
}
