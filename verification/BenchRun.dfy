/**
 What a run of the real-S3 bench is: the figures one script compares, and the entry
 another makes of a report. Every figure is found in the entry where it is looked for.
 */
module BenchRun {
  import opened Wrappers

  // --- documents -------------------------------------------------------------

  datatype Json = Null | Bool(b: bool) | Num(n: real) | Text(s: string) | Arr(a: seq<Json>) | Obj(m: map<string, Json>)

  function Get(doc: Json, key: string): Json { if doc.Obj? && key in doc.m then doc.m[key] else Null }

  // Null when some step is missing.
  function Dig(doc: Json, path: seq<string>): Json
    decreases |path|
  {
    if path == [] then doc else Dig(Get(doc, path[0]), path[1..])
  }

  function Number(v: Json): Option<real> { if v.Num? then Some(v.n) else None }

  datatype Kind = Latency | Count | Exact

  datatype Figure = Figure(name: string, report: seq<string>, run: seq<string>, kind: Kind)

  function Figures(): (r: seq<Figure>)
    ensures |r| == 17
  {
    [ Figure("ingest.strict_ack_latency_ms.p50", ["ingest", "strict_ack_latency_ms", "p50"],
             ["strict_ack_latency_ms", "p50"], Latency),
      Figure("ingest.strict_ack_latency_ms.p95", ["ingest", "strict_ack_latency_ms", "p95"],
             ["strict_ack_latency_ms", "p95"], Latency),
      Figure("ingest.strict_ack_latency_ms.p99", ["ingest", "strict_ack_latency_ms", "p99"],
             ["strict_ack_latency_ms", "p99"], Latency),
      Figure("query.warm_latency_ms.p50", ["query", "warm_latency_ms", "p50"], ["warm_latency_ms", "p50"], Latency),
      Figure("query.warm_latency_ms.p95", ["query", "warm_latency_ms", "p95"], ["warm_latency_ms", "p95"], Latency),
      Figure("query.warm_latency_ms.p99", ["query", "warm_latency_ms", "p99"], ["warm_latency_ms", "p99"], Latency),
      Figure("query.cold_latency_ms.p50", ["query", "cold_latency_ms", "p50"], ["cold_latency_ms_p50"], Latency),
      Figure("s3_requests.put", ["s3_requests", "put"], ["s3_requests", "put"], Exact),
      Figure("s3_requests.get", ["s3_requests", "get"], ["s3_requests", "get"], Count),
      Figure("s3_requests.list", ["s3_requests", "list"], ["s3_requests", "list"], Count),
      Figure("s3_requests.put_attempts", ["s3_requests", "put_attempts"], ["s3_requests", "put_attempts"], Count),
      Figure("s3_requests.get_attempts", ["s3_requests", "get_attempts"], ["s3_requests", "get_attempts"], Count),
      Figure("s3_requests.list_attempts", ["s3_requests", "list_attempts"], ["s3_requests", "list_attempts"], Count),
      Figure("bytes.read", ["bytes", "read"], ["bytes", "read"], Count),
      Figure("bytes.written", ["bytes", "written"], ["bytes", "written"], Count),
      Figure("ingest.accepted_points", ["ingest", "accepted_points"], ["accepted_points"], Exact),
      Figure("query.matched_series", ["query", "matched_series"], ["matched_series"], Exact) ]
  }

  lemma NamesDistinct(i: nat, j: nat)
    requires i < j < 17
    ensures Figures()[i].name != Figures()[j].name
  {
  }

  // --- one run's entry -------------------------------------------------------

  // The listed members of a block, all of which must be there.
  function Block(doc: Json, keys: seq<string>): Option<Json> {
    if forall i :: 0 <= i < |keys| ==> !Get(doc, keys[i]).Null?
    then Some(Obj(map k | k in keys :: Get(doc, k))) else None
  }

  const QUANTILES: seq<string> := ["p50", "p95", "p99"]
  const REQUESTS: seq<string> := ["put", "get", "list", "put_attempts", "get_attempts", "list_attempts"]
  const VOLUMES: seq<string> := ["written", "read"]

  datatype Parts = Parts(commit: Json, toolchain: Json, ack: Option<Json>, cold: Json, warm: Option<Json>,
                         points: Json, series: Json, requests: Option<Json>, volumes: Option<Json>)

  function PartsOf(report: Json): Parts {
    Parts(Dig(report, ["environment", "git_commit"]), Dig(report, ["environment", "toolchain"]),
          Block(Dig(report, ["ingest", "strict_ack_latency_ms"]), QUANTILES),
          Dig(report, ["query", "cold_latency_ms", "p50"]),
          Block(Dig(report, ["query", "warm_latency_ms"]), QUANTILES),
          Dig(report, ["ingest", "accepted_points"]), Dig(report, ["query", "matched_series"]),
          Block(Dig(report, ["s3_requests"]), REQUESTS), Block(Dig(report, ["bytes"]), VOLUMES))
  }

  predicate Complete(p: Parts) {
    && !p.commit.Null? && !p.toolchain.Null? && !p.cold.Null? && !p.points.Null? && !p.series.Null?
    && p.ack.Some? && p.warm.Some? && p.requests.Some? && p.volumes.Some?
  }

  function Assemble(id: int, date: string, p: Parts): Json
    requires Complete(p)
  {
    Obj(map["run_id" := Num(id as real), "scheduled" := Text(date), "git_commit" := p.commit,
            "toolchain" := p.toolchain, "strict_ack_latency_ms" := p.ack.value, "cold_latency_ms_p50" := p.cold,
            "warm_latency_ms" := p.warm.value, "accepted_points" := p.points, "matched_series" := p.series,
            "s3_requests" := p.requests.value, "bytes" := p.volumes.value])
  }

  function RunEntry(id: int, date: string, report: Json): Option<Json> {
    var p := PartsOf(report);
    if Complete(p) then Some(Assemble(id, date, p)) else None
  }

  lemma DigOne(doc: Json, a: string)
    ensures Dig(doc, [a]) == Get(doc, a)
  {
    assert [a][1..] == [];
  }

  lemma DigTwo(doc: Json, a: string, b: string)
    ensures Dig(doc, [a, b]) == Get(Get(doc, a), b)
  {
    assert [a, b][1..] == [b];
    DigOne(Get(doc, a), b);
  }

  lemma DigThree(doc: Json, a: string, b: string, c: string)
    ensures Dig(doc, [a, b, c]) == Get(Dig(doc, [a, b]), c)
  {
    assert [a, b, c][1..] == [b, c];
    DigTwo(Get(doc, a), b, c);
    DigTwo(doc, a, b);
  }

  lemma BlockMember(doc: Json, keys: seq<string>, k: string)
    requires Block(doc, keys).Some? && k in keys
    ensures Get(Block(doc, keys).value, k) == Get(doc, k)
  {
  }

  lemma Members(id: int, date: string, p: Parts)
    requires Complete(p)
    ensures var e := Assemble(id, date, p);
            && Get(e, "strict_ack_latency_ms") == p.ack.value && Get(e, "warm_latency_ms") == p.warm.value
            && Get(e, "cold_latency_ms_p50") == p.cold && Get(e, "s3_requests") == p.requests.value
            && Get(e, "bytes") == p.volumes.value && Get(e, "accepted_points") == p.points
            && Get(e, "matched_series") == p.series
  {
  }

  // Wherever the summary script puts a figure, the comparing script looks for it.
  lemma RunAgrees(id: int, date: string, report: Json, k: nat)
    requires RunEntry(id, date, report).Some? && k < 17
    ensures Dig(RunEntry(id, date, report).value, Figures()[k].run) == Dig(report, Figures()[k].report)
  {
    hide Dig, Get, Block, Assemble;
    var e := RunEntry(id, date, report).value;
    Members(id, date, PartsOf(report));
    if k < 3 {
      LatencyAgrees(report, e, "ingest", "strict_ack_latency_ms", QUANTILES[k]);
    } else if k < 6 {
      LatencyAgrees(report, e, "query", "warm_latency_ms", QUANTILES[k - 3]);
    } else if k == 6 {
      DigOne(e, "cold_latency_ms_p50");
    } else if k < 13 {
      SectionAgrees(report, e, "s3_requests", REQUESTS, REQUESTS[k - 7]);
    } else if k < 15 {
      SectionAgrees(report, e, "bytes", VOLUMES, VOLUMES[14 - k]);
    } else if k == 15 {
      DigOne(e, "accepted_points");
    } else {
      DigOne(e, "matched_series");
    }
  }

  lemma LatencyAgrees(report: Json, e: Json, section: string, name: string, q: string)
    requires var b := Block(Dig(report, [section, name]), QUANTILES);
             b.Some? && Get(e, name) == b.value && q in QUANTILES
    ensures Dig(e, [name, q]) == Dig(report, [section, name, q])
  {
    hide Get, Block, Dig;
    DigTwo(e, name, q);
    DigThree(report, section, name, q);
    BlockMember(Dig(report, [section, name]), QUANTILES, q);
  }

  lemma SectionAgrees(report: Json, e: Json, section: string, keys: seq<string>, q: string)
    requires var b := Block(Dig(report, [section]), keys);
             b.Some? && Get(e, section) == b.value && q in keys
    ensures Dig(e, [section, q]) == Dig(report, [section, q])
  {
    hide Get, Block, Dig;
    DigTwo(e, section, q);
    DigTwo(report, section, q);
    DigOne(report, section);
    BlockMember(Dig(report, [section]), keys, q);
  }
}
