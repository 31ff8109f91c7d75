/**
 The real-S3 bench envelope: the least and greatest value of every figure over several
 runs, or a refusal when some run lacks one. The order of the runs does not matter.
 */
module Envelope {
  import opened BenchRun
  import opened Sorting
  import opened Wrappers

  datatype Refusal =
    | NoRuns | NotNumeric | NoBounds | ExactRange
    | NoEnvironment | EnvironmentDiffers | BadWorkload
    | IncompleteReport

  datatype Bounds = Bounds(min: real, max: real)

  // --- compute_envelope ------------------------------------------------------

  predicate UpTo(a: real, b: real) { a <= b }

  predicate DownTo(a: real, b: real) { a >= b }

  // The figure at a path in every run; None if some run has no number there.
  function Values(runs: seq<Json>, path: seq<string>): (r: Option<seq<real>>)
    ensures r.Some? <==> forall i :: 0 <= i < |runs| ==> Number(Dig(runs[i], path)).Some?
    ensures r.Some? ==> |r.value| == |runs|
    ensures r.Some? ==> forall i :: 0 <= i < |runs| ==> Number(Dig(runs[i], path)) == Some(r.value[i])
  {
    if runs == [] then Some([])
    else
      var n := |runs| - 1;
      var before, v := Values(runs[..n], path), Number(Dig(runs[n], path));
      if before.Some? && v.Some? then Some(before.value + [v.value]) else None
  }

  function BoundsOf(runs: seq<Json>, path: seq<string>): Option<Bounds>
    requires runs != []
  {
    var v := Values(runs, path);
    if v.Some? then Some(Bounds(Least(v.value, UpTo), Least(v.value, DownTo))) else None
  }

  function EnvelopeOf(runs: seq<Json>, figures: seq<Figure>): Result<map<string, Bounds>, Refusal> {
    if runs == [] then Err(NoRuns)
    else if figures == [] then Ok(map[])
    else
      var n := |figures| - 1;
      var before, b := EnvelopeOf(runs, figures[..n]), BoundsOf(runs, figures[n].run);
      if before.Err? then before
      else if b.None? then Err(NotNumeric)
      else Ok(before.value[figures[n].name := b.value])
  }

  // The inner loop: stops at the first run without a number.
  method CollectValues(runs: seq<Json>, path: seq<string>) returns (r: Option<seq<real>>)
    ensures r == Values(runs, path)
  {
    hide Dig;
    var values: seq<real> := [];
    for i := 0 to |runs|
      invariant Some(values) == Values(runs[..i], path)
    {
      assert runs[..i + 1][..i] == runs[..i];
      var v := Number(Dig(runs[i], path));
      if v.None? {
        return None;
      }
      values := values + [v.value];
    }
    assert runs[..|runs|] == runs;
    r := Some(values);
  }

  method ComputeEnvelope(runs: seq<Json>) returns (r: Result<map<string, Bounds>, Refusal>)
    ensures r == EnvelopeOf(runs, Figures())
  {
    hide Figures, Dig, Least, Values;
    if runs == [] {
      return Err(NoRuns);
    }
    var env: map<string, Bounds> := map[];
    var figures := Figures();
    for k := 0 to |figures|
      invariant Ok(env) == EnvelopeOf(runs, figures[..k])
    {
      assert figures[..k + 1][..k] == figures[..k];
      var values := CollectValues(runs, figures[k].run);
      if values.None? {
        FailsFrom(runs, figures, k);
        return Err(NotNumeric);
      }
      env := env[figures[k].name := Bounds(Least(values.value, UpTo), Least(values.value, DownTo))];
    }
    assert figures[..|figures|] == figures;
    r := Ok(env);
  }

  // A figure some run lacks fails the whole envelope.
  lemma {:induction false} FailsFrom(runs: seq<Json>, figures: seq<Figure>, k: nat)
    requires runs != [] && k < |figures| && BoundsOf(runs, figures[k].run).None?
    ensures EnvelopeOf(runs, figures) == Err(NotNumeric)
  {
    hide BoundsOf;
    var n := |figures| - 1;
    if k < n {
      FailsFrom(runs, figures[..n], k);
    } else {
      OnlyNotNumeric(runs, figures[..n]);
    }
  }

  lemma {:induction false} OnlyNotNumeric(runs: seq<Json>, figures: seq<Figure>)
    requires runs != []
    ensures EnvelopeOf(runs, figures).Err? ==> EnvelopeOf(runs, figures) == Err(NotNumeric)
  {
    if figures != [] { OnlyNotNumeric(runs, figures[..|figures| - 1]); }
  }

  // Distinct names, so that no figure overwrites another.
  ghost predicate Distinct(figures: seq<Figure>) {
    forall i, j :: 0 <= i < j < |figures| ==> figures[i].name != figures[j].name
  }

  // A successful envelope has exactly the figures' names, each with its least and greatest.
  lemma {:induction false} EnvelopeHas(runs: seq<Json>, figures: seq<Figure>, k: nat)
    requires Distinct(figures) && EnvelopeOf(runs, figures).Ok? && k < |figures| && runs != []
    ensures var env := EnvelopeOf(runs, figures).value;
            && figures[k].name in env && BoundsOf(runs, figures[k].run) == Some(env[figures[k].name])
  {
    hide BoundsOf;
    var n := |figures| - 1;
    if k < n { EnvelopeHas(runs, figures[..n], k); }
  }

  lemma FiguresDistinct()
    ensures Distinct(Figures())
  {
    hide Figures;
    forall i, j | 0 <= i < j < |Figures()| ensures Figures()[i].name != Figures()[j].name { NamesDistinct(i, j); }
  }

  // --- the order of the runs -------------------------------------------------

  // Reordering the runs changes no bound.
  lemma {:induction false} EnvelopeOrderFree(a: seq<Json>, b: seq<Json>, figures: seq<Figure>)
    requires multiset(a) == multiset(b)
    ensures EnvelopeOf(a, figures) == EnvelopeOf(b, figures)
  {
    hide BoundsOf;
    assert |a| == |multiset(a)| == |multiset(b)| == |b|;
    if figures != [] && a != [] {
      var n := |figures| - 1;
      EnvelopeOrderFree(a, b, figures[..n]);
      BoundsOrderFree(a, b, figures[n].run);
    }
  }

  lemma BoundsOrderFree(a: seq<Json>, b: seq<Json>, path: seq<string>)
    requires multiset(a) == multiset(b) && a != [] && b != []
    ensures BoundsOf(a, path) == BoundsOf(b, path)
  {
    hide Dig, Least, Values;
    AllIn(a, b);
    AllIn(b, a);
    var v, w := Values(a, path), Values(b, path);
    if v.Some? {
      ValuesIn(a, b, path);
      ValuesIn(b, a, path);
      assert Least(v.value, UpTo) in w.value && Least(w.value, UpTo) in v.value;
      assert Least(v.value, DownTo) in w.value && Least(w.value, DownTo) in v.value;
    }
  }

  ghost predicate Within(a: seq<Json>, b: seq<Json>) { forall i :: 0 <= i < |a| ==> a[i] in b }

  lemma AllIn(a: seq<Json>, b: seq<Json>)
    requires multiset(a) == multiset(b)
    ensures Within(a, b)
  {
    forall i | 0 <= i < |a| ensures a[i] in b {
      assert a[i] in multiset(a);
      assert a[i] in multiset(b);
    }
  }

  lemma ValuesIn(a: seq<Json>, b: seq<Json>, path: seq<string>)
    requires Within(a, b) && Values(b, path).Some?
    ensures Values(a, path).Some? && forall x :: x in Values(a, path).value ==> x in Values(b, path).value
  {
    hide Dig, Values;
    forall i | 0 <= i < |a|
      ensures Number(Dig(a[i], path)).Some? && Number(Dig(a[i], path)).value in Values(b, path).value
    {
      assert a[i] in b;
      var j :| 0 <= j < |b| && b[j] == a[i];
    }
  }
}
