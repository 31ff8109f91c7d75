/**
 Comparing a report with an envelope, and building the envelope from reports. Every
 report that went into an envelope compares clean against it, with no warning and no
 refusal, exactly when no band's maximum is negative and the workload is one the
 comparison can read.
 */
module EnvelopeCompare {
  import opened BenchRun
  import opened Envelope
  import opened Sorting
  import opened Wrappers

  const ENV_FIELDS: seq<string> := ["store_backend", "region", "shard_count", "max_flush_delay_ms"]

  datatype Document = Document(environment: Json, runs: seq<Json>, envelope: map<string, Bounds>)

  // --- the environment -------------------------------------------------------

  // The environment a report was taken in, as the summary records it.
  function EnvironmentOf(report: Json): Option<Json> {
    var env := Get(report, "environment");
    if env.Obj? then Some(Obj(map f | f in ENV_FIELDS + ["workload"] :: Get(env, f))) else None
  }

  // What Python takes for false.
  predicate Falsy(v: Json) {
    v.Null? || v == Bool(false) || v == Num(0.0) || v == Json.Text("") || v == Arr([]) || v == Obj(map[])
  }

  // Objects are read, false values count as empty, and anything else breaks the check.
  function Workload(env: Json): Option<map<string, Json>> {
    var w := Get(env, "workload");
    if w.Obj? then Some(w.m) else if Falsy(w) then Some(map[]) else None
  }

  function CheckEnvironment(envelope: Json, report: Json): Option<Refusal> {
    if !report.Obj? then Some(NoEnvironment)
    else if exists i :: 0 <= i < |ENV_FIELDS| && Get(envelope, ENV_FIELDS[i]) != Get(report, ENV_FIELDS[i])
    then Some(EnvironmentDiffers)
    else if Workload(envelope).None? || Workload(report).None? then Some(BadWorkload)
    else
      var e, r := Obj(Workload(envelope).value), Obj(Workload(report).value);
      if exists k :: k in e.m.Keys + r.m.Keys && Get(e, k) != Get(r, k) then Some(EnvironmentDiffers) else None
  }

  // A report passes against its own recorded environment unless its workload is unreadable.
  lemma OwnEnvironment(report: Json)
    requires EnvironmentOf(report).Some?
    ensures CheckEnvironment(EnvironmentOf(report).value, Get(report, "environment"))
            == if Workload(Get(report, "environment")).Some? then None else Some(BadWorkload)
  {
    var env, own := Get(report, "environment"), EnvironmentOf(report).value;
    forall i | 0 <= i < |ENV_FIELDS| ensures Get(own, ENV_FIELDS[i]) == Get(env, ENV_FIELDS[i]) {
      assert ENV_FIELDS[i] in ENV_FIELDS + ["workload"];
    }
    assert Get(own, "workload") == Get(env, "workload") by {
      assert "workload" in ENV_FIELDS + ["workload"];
    }
  }

  // The check passes exactly the reports whose environment and workload agree in every
  // member, missing and null members counting as the same.
  lemma EnvironmentExact(envelope: Json, report: Json)
    ensures CheckEnvironment(envelope, report).None? <==>
            && report.Obj? && (forall f :: f in ENV_FIELDS ==> Get(envelope, f) == Get(report, f))
            && Workload(envelope).Some? && Workload(report).Some?
            && forall k :: Get(Obj(Workload(envelope).value), k) == Get(Obj(Workload(report).value), k)
  {
    hide Workload;
    if Workload(envelope).Some? && Workload(report).Some? {
      var e, r := Obj(Workload(envelope).value), Obj(Workload(report).value);
      forall k | k !in e.m.Keys + r.m.Keys ensures Get(e, k) == Get(r, k) {}
    }
    assert forall f :: f in ENV_FIELDS <==> exists i :: 0 <= i < |ENV_FIELDS| && ENV_FIELDS[i] == f;
  }

  // --- compare ---------------------------------------------------------------

  // A quarter past the maximum for latencies, a tenth for counts.
  function Limit(kind: Kind, max: real): real { max * (1.0 + (if kind == Latency then 25.0 else 10.0) / 100.0) }

  predicate Outside(kind: Kind, b: Bounds, v: real) {
    if kind == Exact then v != b.min else v > Limit(kind, b.max)
  }

  // The names of the figures a report misses or has outside their bands.
  function Warnings(stored: map<string, Bounds>, report: Json, figures: seq<Figure>): Result<seq<string>, Refusal> {
    if figures == [] then Ok([])
    else
      var n := |figures| - 1;
      var before := Warnings(stored, report, figures[..n]);
      if before.Err? then before else
      var f := figures[n];
      if f.name !in stored then Err(NoBounds) else
      var b := stored[f.name];
      if f.kind == Exact && b.min != b.max then Err(ExactRange) else
      var v := Number(Dig(report, f.report));
      if v.None? || Outside(f.kind, b, v.value) then Ok(before.value + [f.name]) else before
  }

  function Comparison(doc: Document, report: Json): Result<seq<string>, Refusal> {
    var refusal := CheckEnvironment(doc.environment, Get(report, "environment"));
    if refusal.Some? then Err(refusal.value) else Warnings(doc.envelope, report, Figures())
  }

  method Compare(doc: Document, report: Json) returns (r: Result<seq<string>, Refusal>)
    ensures r == Comparison(doc, report)
  {
    hide Figures, Dig, CheckEnvironment, Outside;
    var refusal := CheckEnvironment(doc.environment, Get(report, "environment"));
    if refusal.Some? {
      return Err(refusal.value);
    }
    var figures := Figures();
    var warnings: seq<string> := [];
    for k := 0 to |figures|
      invariant Warnings(doc.envelope, report, figures[..k]) == Ok(warnings)
    {
      assert figures[..k + 1][..k] == figures[..k];
      var f := figures[k];
      if f.name !in doc.envelope {
        Stopped(doc.envelope, report, figures, k + 1);
        return Err(NoBounds);
      }
      var b := doc.envelope[f.name];
      if f.kind == Exact && b.min != b.max {
        Stopped(doc.envelope, report, figures, k + 1);
        return Err(ExactRange);
      }
      var v := Number(Dig(report, f.report));
      if v.None? || Outside(f.kind, b, v.value) {
        warnings := warnings + [f.name];
      }
    }
    assert figures[..|figures|] == figures;
    r := Ok(warnings);
  }

  // A refusal at one figure is the comparison's refusal.
  lemma {:induction false} Stopped(stored: map<string, Bounds>, report: Json, figures: seq<Figure>, k: nat)
    requires k <= |figures| && Warnings(stored, report, figures[..k]).Err?
    ensures Warnings(stored, report, figures) == Warnings(stored, report, figures[..k])
    decreases |figures| - k
  {
    if k == |figures| {
      assert figures[..k] == figures;
    } else {
      assert figures[..k + 1][..k] == figures[..k];
      Stopped(stored, report, figures, k + 1);
    }
  }

  // A figure is fine when it is there, its bounds are usable and it is inside its band.
  ghost predicate Fine(stored: map<string, Bounds>, report: Json, f: Figure) {
    && f.name in stored && (f.kind == Exact ==> stored[f.name].min == stored[f.name].max)
    && Number(Dig(report, f.report)).Some? && !Outside(f.kind, stored[f.name], Number(Dig(report, f.report)).value)
  }

  // No warning and no refusal exactly when every figure is fine.
  lemma {:induction false} CleanIff(stored: map<string, Bounds>, report: Json, figures: seq<Figure>)
    ensures Warnings(stored, report, figures) == Ok([]) <==>
            forall k :: 0 <= k < |figures| ==> Fine(stored, report, figures[k])
  {
    hide Dig, Outside;
    if figures != [] {
      var n := |figures| - 1;
      CleanIff(stored, report, figures[..n]);
      assert forall k :: 0 <= k < n ==> figures[..n][k] == figures[k];
    }
  }

  // A figure out of its band, in whole percents: an exact one that differs, a latency past
  // 125 percent of the maximum, a count past 110 percent of it.
  predicate Beyond(kind: Kind, b: Bounds, v: real) {
    match kind
    case Exact => v != b.min
    case Latency => 100.0 * v > 125.0 * b.max
    case Count => 100.0 * v > 110.0 * b.max
  }

  lemma BandMeans(kind: Kind, b: Bounds, v: real)
    ensures Outside(kind, b, v) <==> Beyond(kind, b, v)
  {
  }

  // A comparison warns about exactly the figures that are missing or out of their bands.
  lemma {:induction false} WarnsExactly(stored: map<string, Bounds>, report: Json, figures: seq<Figure>, k: nat)
    requires Distinct(figures) && Warnings(stored, report, figures).Ok? && k < |figures|
    ensures var f, v := figures[k], Number(Dig(report, figures[k].report));
            && f.name in stored
            && (f.name in Warnings(stored, report, figures).value <==>
                v.None? || Beyond(f.kind, stored[f.name], v.value))
  {
    hide Dig, Outside, Beyond, Number;
    var n := |figures| - 1;
    var f, v := figures[n], Number(Dig(report, figures[n].report));
    if v.Some? { BandMeans(f.kind, stored[f.name], v.value); }
    if k < n {
      WarnsExactly(stored, report, figures[..n], k);
    } else {
      WarnedAmong(stored, report, figures[..n], f.name);
    }
  }

  lemma {:induction false} WarnedAmong(stored: map<string, Bounds>, report: Json, figures: seq<Figure>, name: string)
    requires Warnings(stored, report, figures).Ok? && forall i :: 0 <= i < |figures| ==> figures[i].name != name
    ensures name !in Warnings(stored, report, figures).value
  {
    hide Dig, Outside, Number;
    if figures != [] { WarnedAmong(stored, report, figures[..|figures| - 1], name); }
  }

  // --- summarise -------------------------------------------------------------

  datatype Input = Input(id: int, date: string, report: Json)

  // The entries of reports that share an environment.
  function Gather(inputs: seq<Input>): Result<(Option<Json>, seq<Json>), Refusal> {
    if inputs == [] then Ok((None, []))
    else
      var n := |inputs| - 1;
      var before := Gather(inputs[..n]);
      if before.Err? then before else
      var env := EnvironmentOf(inputs[n].report);
      if env.None? then Err(NoEnvironment)
      else if before.value.0.Some? && env != before.value.0 then Err(EnvironmentDiffers)
      else
        var entry := RunEntry(inputs[n].id, inputs[n].date, inputs[n].report);
        if entry.None? then Err(IncompleteReport) else Ok((env, before.value.1 + [entry.value]))
  }

  function DateOf(run: Json): string { var d := Get(run, "scheduled"); if d.Text? then d.s else "" }

  predicate ByDate(a: Json, b: Json) { StringLeq(DateOf(a), DateOf(b)) }

  // An exact figure must be the same in every run.
  predicate ExactAgree(envelope: map<string, Bounds>, figures: seq<Figure>) {
    forall k :: 0 <= k < |figures| && figures[k].kind == Exact && figures[k].name in envelope ==>
      envelope[figures[k].name].min == envelope[figures[k].name].max
  }

  function BuildDocument(environment: Json, runs: seq<Json>): Result<Document, Refusal> {
    var envelope := EnvelopeOf(runs, Figures());
    if envelope.Err? then Err(envelope.error)
    else if !ExactAgree(envelope.value, Figures()) then Err(ExactRange)
    else Ok(Document(environment, runs, envelope.value))
  }

  function Summary(inputs: seq<Input>): Result<Document, Refusal> {
    var g := Gather(inputs);
    if g.Err? then Err(g.error)
    else if g.value.0.None? then Err(NoRuns)
    else BuildDocument(g.value.0.value, Sort(g.value.1, ByDate))
  }

  method Summarise(inputs: seq<Input>) returns (r: Result<Document, Refusal>)
    ensures r == Summary(inputs)
  {
    hide EnvironmentOf, RunEntry, BuildDocument, Sort;
    var runs: seq<Json> := [];
    var environment: Option<Json> := None;
    for i := 0 to |inputs|
      invariant Gather(inputs[..i]) == Ok((environment, runs))
    {
      assert inputs[..i + 1][..i] == inputs[..i];
      var env := EnvironmentOf(inputs[i].report);
      if env.None? {
        GatherStopped(inputs, i + 1);
        return Err(NoEnvironment);
      }
      if environment.None? {
        environment := env;
      } else if env != environment {
        GatherStopped(inputs, i + 1);
        return Err(EnvironmentDiffers);
      }
      var entry := RunEntry(inputs[i].id, inputs[i].date, inputs[i].report);
      if entry.None? {
        GatherStopped(inputs, i + 1);
        return Err(IncompleteReport);
      }
      runs := runs + [entry.value];
    }
    assert inputs[..|inputs|] == inputs;
    if environment.None? {
      return Err(NoRuns);
    }
    runs := Sort(runs, ByDate);
    r := BuildDocument(environment.value, runs);
  }

  lemma {:induction false} GatherStopped(inputs: seq<Input>, k: nat)
    requires k <= |inputs| && Gather(inputs[..k]).Err?
    ensures Gather(inputs) == Gather(inputs[..k])
    decreases |inputs| - k
  {
    hide EnvironmentOf, RunEntry;
    if k == |inputs| {
      assert inputs[..k] == inputs;
    } else {
      assert inputs[..k + 1][..k] == inputs[..k];
      GatherStopped(inputs, k + 1);
    }
  }

  // Every report gathered has the environment recorded, and entry i is its run.
  ghost predicate Gathered(inputs: seq<Input>, env: Option<Json>, runs: seq<Json>) {
    && |runs| == |inputs|
    && forall i :: 0 <= i < |inputs| ==>
         && env.Some? && EnvironmentOf(inputs[i].report) == env
         && RunEntry(inputs[i].id, inputs[i].date, inputs[i].report) == Some(runs[i])
  }

  lemma {:induction false} GatherFacts(inputs: seq<Input>)
    requires Gather(inputs).Ok?
    ensures Gathered(inputs, Gather(inputs).value.0, Gather(inputs).value.1)
  {
    hide EnvironmentOf, RunEntry;
    if inputs != [] { GatherFacts(inputs[..|inputs| - 1]); }
  }

  // --- the two scripts together ----------------------------------------------

  // The check recomputes the bounds from a file's own runs.
  function CheckStatus(runs: seq<Json>, stored: map<string, Bounds>): Result<nat, Refusal> {
    var expected := EnvelopeOf(runs, Figures());
    if expected.Err? then Err(expected.error) else Ok(if stored == expected.value then 0 else 1)
  }

  // It passes a file that holds the runs of a built document, in whatever order, exactly
  // when the file stores the bounds that were built.
  lemma StoredAgrees(inputs: seq<Input>, runs: seq<Json>, stored: map<string, Bounds>)
    requires Summary(inputs).Ok? && multiset(runs) == multiset(Summary(inputs).value.runs)
    ensures CheckStatus(runs, stored) == Ok(if stored == Summary(inputs).value.envelope then 0 else 1)
  {
    hide Figures, EnvelopeOf;
    EnvelopeOrderFree(runs, Summary(inputs).value.runs, Figures());
  }

  // The figure a report has.
  function FigureOf(report: Json, f: Figure): Option<real> { Number(Dig(report, f.report)) }

  // What a document built from reports holds for a figure: every report has it, between
  // the bounds, and some report attains the maximum.
  ghost predicate Covers(doc: Document, inputs: seq<Input>, f: Figure) {
    && f.name in doc.envelope && (f.kind == Exact ==> doc.envelope[f.name].min == doc.envelope[f.name].max)
    && (forall i :: 0 <= i < |inputs| ==> Between(doc.envelope[f.name], FigureOf(inputs[i].report, f)))
    && exists i :: 0 <= i < |inputs| && FigureOf(inputs[i].report, f) == Some(doc.envelope[f.name].max)
  }

  ghost predicate Between(b: Bounds, v: Option<real>) { v.Some? && b.min <= v.value <= b.max }

  lemma SummaryCovers(inputs: seq<Input>, k: nat)
    requires Summary(inputs).Ok? && k < |Figures()|
    ensures Covers(Summary(inputs).value, inputs, Figures()[k])
  {
    hide Figures, Dig, EnvelopeOf, Gather, Sort, RunEntry, EnvironmentOf, BoundsOf;
    var doc, f := Summary(inputs).value, Figures()[k];
    GatherFacts(inputs);
    var runs := Gather(inputs).value.1;
    var sorted := Sort(runs, ByDate);
    SomeRuns(sorted);
    EnvelopeOrderFree(sorted, runs, Figures());
    FiguresDistinct();
    EnvelopeHas(runs, Figures(), k);
    assert doc.envelope == EnvelopeOf(runs, Figures()).value;
    BoundsCover(runs, f.run);
    forall i | 0 <= i < |inputs| ensures FigureOf(inputs[i].report, f) == Number(Dig(runs[i], f.run)) {
      RunAgrees(inputs[i].id, inputs[i].date, inputs[i].report, k);
    }
  }

  lemma SomeRuns(runs: seq<Json>)
    requires EnvelopeOf(runs, Figures()).Ok?
    ensures runs != []
  {
  }

  lemma BoundsCover(runs: seq<Json>, path: seq<string>)
    requires runs != [] && BoundsOf(runs, path).Some?
    ensures var b := BoundsOf(runs, path).value;
            && (forall i :: 0 <= i < |runs| ==> Between(b, Number(Dig(runs[i], path))))
            && exists i :: 0 <= i < |runs| && Number(Dig(runs[i], path)) == Some(b.max)
  {
    hide Dig, Values;
    var v := Values(runs, path).value;
    var j :| 0 <= j < |v| && v[j] == Least(v, DownTo);
    assert Number(Dig(runs[j], path)) == Some(v[j]);
  }

  // The maximum itself is inside its band exactly when it is not negative.
  lemma LimitAbove(kind: Kind, max: real)
    ensures max <= Limit(kind, max) <==> max >= 0.0
  {
  }

  // A report in an envelope is fine for a figure whose maximum is not negative.
  lemma CoveredFine(doc: Document, inputs: seq<Input>, f: Figure, i: nat)
    requires Covers(doc, inputs, f) && i < |inputs| && (f.kind == Exact || doc.envelope[f.name].max >= 0.0)
    ensures Fine(doc.envelope, inputs[i].report, f)
  {
    hide Dig, Limit;
    assert Between(doc.envelope[f.name], FigureOf(inputs[i].report, f));
    LimitAbove(f.kind, doc.envelope[f.name].max);
  }

  ghost predicate AllClean(doc: Document, inputs: seq<Input>) {
    forall i :: 0 <= i < |inputs| ==> Comparison(doc, inputs[i].report) == Ok([])
  }

  // Some report has a figure of a band that is not negative.
  ghost predicate SomeNonNegative(inputs: seq<Input>, f: Figure) {
    exists i :: 0 <= i < |inputs| && FigureOf(inputs[i].report, f).Some? && FigureOf(inputs[i].report, f).value >= 0.0
  }

  ghost predicate Comparable(inputs: seq<Input>) {
    && (forall i :: 0 <= i < |inputs| ==> Workload(Get(inputs[i].report, "environment")).Some?)
    && forall k :: 0 <= k < |Figures()| && Figures()[k].kind != Exact ==> SomeNonNegative(inputs, Figures()[k])
  }

  lemma MaxNonNegative(doc: Document, inputs: seq<Input>, f: Figure)
    requires Covers(doc, inputs, f)
    ensures SomeNonNegative(inputs, f) <==> doc.envelope[f.name].max >= 0.0
  {
    hide FigureOf;
    if SomeNonNegative(inputs, f) {
      var i :| 0 <= i < |inputs| && FigureOf(inputs[i].report, f).Some? && FigureOf(inputs[i].report, f).value >= 0.0;
      assert Between(doc.envelope[f.name], FigureOf(inputs[i].report, f));
    }
  }

  // Reports that make an envelope all compare clean against it exactly when the workload
  // can be read and every band figure is non-negative in some report.
  lemma ReportsCompareClean(inputs: seq<Input>)
    requires Summary(inputs).Ok?
    ensures AllClean(Summary(inputs).value, inputs) <==> Comparable(inputs)
  {
    hide Summary, Comparison, Figures, Get, Workload;
    var doc := Summary(inputs).value;
    if Comparable(inputs) {
      forall i | 0 <= i < |inputs| ensures Comparison(doc, inputs[i].report) == Ok([]) { CleanOne(inputs, i); }
    }
    if AllClean(doc, inputs) {
      forall i | 0 <= i < |inputs|
        ensures Workload(Get(inputs[i].report, "environment")).Some?
      {
        ReadableOne(inputs, i);
      }
      forall k | 0 <= k < |Figures()| && Figures()[k].kind != Exact ensures SomeNonNegative(inputs, Figures()[k]) {
        NonNegativeOne(inputs, k);
      }
    }
  }

  // The document carries each report's own environment.
  lemma OwnDocument(inputs: seq<Input>, i: nat)
    requires Summary(inputs).Ok? && i < |inputs|
    ensures CheckEnvironment(Summary(inputs).value.environment, Get(inputs[i].report, "environment"))
            == if Workload(Get(inputs[i].report, "environment")).Some? then None else Some(BadWorkload)
  {
    hide Gather, EnvironmentOf, RunEntry, CheckEnvironment, Workload, Get, EnvelopeOf, Figures, Sort;
    GatherFacts(inputs);
    assert EnvironmentOf(inputs[i].report) == Gather(inputs).value.0;
    OwnEnvironment(inputs[i].report);
  }

  lemma CleanOne(inputs: seq<Input>, i: nat)
    requires Summary(inputs).Ok? && Comparable(inputs) && i < |inputs|
    ensures Comparison(Summary(inputs).value, inputs[i].report) == Ok([])
  {
    hide Summary, Figures, Get, Workload, CheckEnvironment, Warnings, Fine, Covers, SomeNonNegative;
    var doc := Summary(inputs).value;
    OwnDocument(inputs, i);
    forall k | 0 <= k < |Figures()| ensures Fine(doc.envelope, inputs[i].report, Figures()[k]) {
      SummaryCovers(inputs, k);
      MaxNonNegative(doc, inputs, Figures()[k]);
      CoveredFine(doc, inputs, Figures()[k], i);
    }
    CleanIff(doc.envelope, inputs[i].report, Figures());
  }

  lemma ReadableOne(inputs: seq<Input>, i: nat)
    requires Summary(inputs).Ok? && AllClean(Summary(inputs).value, inputs) && i < |inputs|
    ensures Workload(Get(inputs[i].report, "environment")).Some?
  {
    hide Summary, Figures, Get, Workload, CheckEnvironment, Warnings;
    OwnDocument(inputs, i);
    assert Comparison(Summary(inputs).value, inputs[i].report) == Ok([]);
  }

  // The report that attains a band's maximum is outside the band if that is negative.
  lemma NonNegativeOne(inputs: seq<Input>, k: nat)
    requires Summary(inputs).Ok? && AllClean(Summary(inputs).value, inputs)
    requires k < |Figures()| && Figures()[k].kind != Exact
    ensures SomeNonNegative(inputs, Figures()[k])
  {
    hide Summary, Figures, Get, CheckEnvironment, Warnings, Limit, Dig;
    var doc, f := Summary(inputs).value, Figures()[k];
    SummaryCovers(inputs, k);
    var i :| 0 <= i < |inputs| && FigureOf(inputs[i].report, f) == Some(doc.envelope[f.name].max);
    assert Comparison(doc, inputs[i].report) == Ok([]);
    CleanIff(doc.envelope, inputs[i].report, Figures());
    assert Fine(doc.envelope, inputs[i].report, f);
    LimitAbove(f.kind, doc.envelope[f.name].max);
  }
}
