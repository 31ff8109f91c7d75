/**
 How many passes an index build takes. Each field's key runs are cut greedily into groups
 of at most a share of the pair budget; the evaluator bounds the number of groups from the
 totals alone. The bounds hold for every list of runs, and the greedy cut is a least one.
 */
module GreedyPass {
  import opened Numbers
  import opened Sorting

  function Sum(s: seq<nat>): nat { if s == [] then 0 else Sum(s[..|s| - 1]) + s[|s| - 1] }

  predicate DownTo(a: int, b: int) { a >= b }

  function Greatest(s: seq<int>): (m: int)
    requires s != []
    ensures m in s && forall i :: 0 <= i < |s| ==> s[i] <= m
  {
    var m := Least(s, DownTo);
    assert forall i :: 0 <= i < |s| ==> DownTo(m, s[i]);
    m
  }

  // --- the greedy cut --------------------------------------------------------

  // Closed groups and what the open one holds.
  function Cut(share: int, runs: seq<nat>): (nat, nat) {
    if runs == [] then (0, 0)
    else
      var (groups, held) := Cut(share, runs[..|runs| - 1]);
      Step(share, groups, held, runs[|runs| - 1])
  }

  function Step(share: int, groups: nat, held: nat, run: nat): (nat, nat) {
    if held != 0 && held + run > share then (groups + 1, run) else (groups, held + run)
  }

  function Used(state: (nat, nat)): nat { state.0 + if state.1 != 0 then 1 else 0 }

  function Groups(share: int, runs: seq<nat>): nat { AtLeastOne(Used(Cut(share, runs))) }

  method GreedyGroups(share: int, runs: seq<nat>) returns (n: nat)
    ensures n == Groups(share, runs)
  {
    var groups, held := 0, 0;
    for i := 0 to |runs|
      invariant (groups, held) == Cut(share, runs[..i])
    {
      assert runs[..i + 1][..i] == runs[..i];
      if held != 0 && held + runs[i] > share {
        groups, held := groups + 1, 0;
      }
      held := held + runs[i];
    }
    assert runs[..|runs|] == runs;
    n := AtLeastOne(groups + if held != 0 then 1 else 0);
  }

  // --- the bounds ------------------------------------------------------------

  // The ceiling as the source computes it.
  function CeilDiv(p: int, s: int): int
    requires s > 0
  {
    -(-p / s)
  }

  lemma CeilBelow(p: int, s: int, m: int)
    requires s > 0 && p <= m * s
    ensures CeilDiv(p, s) <= m
  {
    var c := -p / s;
    assert c * s + (-p) % s == -p;
    assert (c + m) * s == c * s + m * s;
    NotNegative(c + m, s);
  }

  lemma CeilAbove(p: int, s: int, q: int)
    requires s > 0 && p > q * s
    ensures CeilDiv(p, s) > q
  {
    var c := -p / s;
    assert c * s + (-p) % s == -p;
    assert (-c - q) * s == -(c * s) - q * s;
    Positive(-c - q, s);
  }

  lemma NotNegative(x: int, s: int)
    requires s > 0 && x * s > -s
    ensures x >= 0
  {
  }

  lemma Positive(x: int, s: int)
    requires s > 0 && x * s > 0
    ensures x > 0
  {
  }

  function Share(budget: int, fields: nat): (s: int)
    requires fields > 0
    ensures s >= 1
  {
    AtLeastOne(budget / fields)
  }

  function Needs(pairs: seq<nat>, share: int): (r: seq<int>)
    requires share > 0
    ensures |r| == |pairs| && forall i :: 0 <= i < |r| ==> r[i] == CeilDiv(pairs[i], share)
  {
    seq(|pairs|, i requires 0 <= i < |pairs| => CeilDiv(pairs[i], share))
  }

  function Highs(needs: seq<int>): (r: seq<int>)
    ensures |r| == |needs| && forall i :: 0 <= i < |r| ==> r[i] == 2 * needs[i] - 1
  {
    seq(|needs|, i requires 0 <= i < |needs| => 2 * needs[i] - 1)
  }

  function Bounds(budget: int, pairs: seq<nat>): (int, int)
    requires pairs != []
  {
    var needs := Needs(pairs, Share(budget, |pairs|));
    (AtLeastOne(Greatest(needs)), AtLeastOne(Greatest(Highs(needs))))
  }

  // --- one field -------------------------------------------------------------

  // A group holds at most the share, so the groups used hold all pairs.
  lemma {:induction false} GroupsHold(share: int, runs: seq<nat>)
    requires share >= 1 && forall i :: 0 <= i < |runs| ==> runs[i] <= share
    ensures Cut(share, runs).1 <= share
    ensures Sum(runs) <= Cut(share, runs).0 * share + Cut(share, runs).1
  {
    if runs != [] {
      var n := |runs| - 1;
      GroupsHold(share, runs[..n]);
      var g := Cut(share, runs[..n]).0;
      assert (g + 1) * share == g * share + share;
    }
  }

  // Two adjacent groups hold more than the share: after an even number of closed groups
  // the closed pairs of them do, after an odd number the last one does with the open one.
  lemma {:induction false} AdjacentExceed(share: int, runs: seq<nat>)
    requires share >= 1
    ensures var (g, h) := Cut(share, runs);
            if g % 2 == 0 then Sum(runs) >= (g / 2) * (share + 1) + h else Sum(runs) >= (g / 2 + 1) * (share + 1)
  {
    if runs != [] {
      var n := |runs| - 1;
      AdjacentExceed(share, runs[..n]);
      var (g, h) := Cut(share, runs[..n]);
      assert (g / 2 + 1) * (share + 1) == (g / 2) * (share + 1) + (share + 1);
    }
  }

  lemma FieldLow(share: int, runs: seq<nat>)
    requires share >= 1 && forall i :: 0 <= i < |runs| ==> runs[i] <= share
    ensures AtLeastOne(CeilDiv(Sum(runs), share)) <= Groups(share, runs)
  {
    hide CeilDiv;
    GroupsHold(share, runs);
    var (g, h) := Cut(share, runs);
    assert (g + 1) * share == g * share + share;
    CeilBelow(Sum(runs), share, Used((g, h)));
  }

  lemma FieldHigh(share: int, runs: seq<nat>)
    requires share >= 1
    ensures Groups(share, runs) <= AtLeastOne(2 * CeilDiv(Sum(runs), share) - 1)
  {
    hide CeilDiv;
    AdjacentExceed(share, runs);
    var (g, h) := Cut(share, runs);
    var q := if g % 2 == 0 then g / 2 else g / 2 + 1;
    assert q * (share + 1) == q * share + q;
    if q > 0 || h > 0 { CeilAbove(Sum(runs), share, q); }
  }

  // --- every field -----------------------------------------------------------

  function Totals(fields: seq<seq<nat>>): (r: seq<nat>)
    ensures |r| == |fields| && forall i :: 0 <= i < |r| ==> r[i] == Sum(fields[i])
  {
    seq(|fields|, i requires 0 <= i < |fields| => Sum(fields[i]))
  }

  function Counts(share: int, fields: seq<seq<nat>>): (r: seq<int>)
    ensures |r| == |fields| && forall i :: 0 <= i < |r| ==> r[i] == Groups(share, fields[i])
  {
    seq(|fields|, i requires 0 <= i < |fields| => Groups(share, fields[i]))
  }

  ghost predicate WithinShare(fields: seq<seq<nat>>, share: int) {
    forall i :: 0 <= i < |fields| ==> forall k :: 0 <= k < |fields[i]| ==> fields[i][k] <= share
  }

  // The slowest field's count is within the bounds computed from the totals alone; the
  // upper one holds however long the runs are.
  lemma SlowestWithinBounds(budget: int, fields: seq<seq<nat>>)
    requires fields != []
    ensures var share := Share(budget, |fields|);
            var slowest := Greatest(Counts(share, fields));
            var (low, high) := Bounds(budget, Totals(fields));
            slowest <= high && (WithinShare(fields, share) ==> low <= slowest)
  {
    hide Groups, CeilDiv, Greatest, Sum;
    var share := Share(budget, |fields|);
    var needs := Needs(Totals(fields), share);
    var counts := Counts(share, fields);
    var slowest, most, high := Greatest(counts), Greatest(needs), Greatest(Highs(needs));
    var i :| 0 <= i < |counts| && counts[i] == slowest;
    FieldHigh(share, fields[i]);
    assert Highs(needs)[i] <= high;
    if WithinShare(fields, share) {
      var j :| 0 <= j < |needs| && needs[j] == most;
      FieldLow(share, fields[j]);
      assert counts[j] <= slowest;
    }
  }

  // One run over the share is one group, below the low bound its pairs give.
  lemma OversizedRun(share: int, run: nat)
    requires 1 <= share < run
    ensures Groups(share, [run]) == 1 < CeilDiv(run, share)
  {
    var none: seq<nat> := [];
    assert [run][..0] == none && Cut(share, none) == (0, 0);
    CeilAbove(run, share, 1);
  }

  // The low bound of the totals is not above the slowest field's count.
  ghost predicate LowHolds(budget: int, fields: seq<seq<nat>>)
    requires fields != []
  {
    Bounds(budget, Totals(fields)).0 <= Greatest(Counts(Share(budget, |fields|), fields))
  }

  // For n fields whose runs may be as long as m, the low bound always holds if and only if
  // m is within the share.
  lemma LowIff(budget: int, n: nat, m: nat)
    requires n > 0
    ensures (forall fields | |fields| == n :: WithinShare(fields, m) ==> LowHolds(budget, fields))
            <==> m <= Share(budget, n)
  {
    hide Groups, CeilDiv, Greatest, Sum, Share;
    var share := Share(budget, n);
    if m <= share {
      forall fields | |fields| == n && WithinShare(fields, m) ensures LowHolds(budget, fields) {
        SlowestWithinBounds(budget, fields);
      }
    } else {
      var fields := seq(n, _ => [m]);
      OversizedFields(budget, fields, m);
      assert WithinShare(fields, m) && !LowHolds(budget, fields);
    }
  }

  lemma OversizedFields(budget: int, fields: seq<seq<nat>>, m: nat)
    requires fields != [] && Share(budget, |fields|) < m && forall i :: 0 <= i < |fields| ==> fields[i] == [m]
    ensures !LowHolds(budget, fields)
  {
    hide Groups, CeilDiv, Greatest, Share;
    var share := Share(budget, |fields|);
    OversizedRun(share, m);
    assert Sum([m]) == m by { assert [m][..0] == []; }
    var needs, counts := Needs(Totals(fields), share), Counts(share, fields);
    assert needs[0] <= Greatest(needs);
    var i :| 0 <= i < |counts| && counts[i] == Greatest(counts);
  }

  // The share is the largest that all fields together can have, and at least one pair.
  lemma ShareLargest(budget: int, fields: nat)
    requires fields > 0
    ensures var s := Share(budget, fields); (s == 1 || fields * s <= budget) && budget < fields * (s + 1)
  {
    var q := budget / fields;
    assert fields * q <= budget < fields * q + fields;
    assert fields * (q + 1) == fields * q + fields;
    if q < 1 {
      assert fields * 2 == fields + fields;
      Upward(fields, q + 1, 1);
    }
  }

  lemma Upward(a: nat, x: int, y: int)
    requires x <= y
    ensures a * x <= a * y
  {
  }

  // The two bounds are never further apart than one field of them is.
  lemma HighFromLow(budget: int, pairs: seq<nat>)
    requires pairs != []
    ensures var (low, high) := Bounds(budget, pairs); high == 2 * low - 1
  {
    hide CeilDiv, Greatest, Share;
    var needs := Needs(pairs, Share(budget, |pairs|));
    var most, high := Greatest(needs), Greatest(Highs(needs));
    var i :| 0 <= i < |needs| && needs[i] == most;
    var j :| 0 <= j < |needs| && Highs(needs)[j] == high;
    assert Highs(needs)[i] <= high && needs[j] <= most;
  }

  // --- the greedy cut is a least one -----------------------------------------

  function Joined(groups: seq<seq<nat>>): seq<nat> {
    if groups == [] then [] else Joined(groups[..|groups| - 1]) + groups[|groups| - 1]
  }

  // Within one group of at most the share, the cut closes at most once, and then only a
  // group that was already open.
  lemma {:induction false} OneGroup(share: int, before: seq<nat>, group: seq<nat>)
    requires Sum(group) <= share
    ensures var (g, h) := Cut(share, before);
            var (g', h') := Cut(share, before + group);
            (g' == g && h' == h + Sum(group)) || (g' == g + 1 && h > 0 && h' <= Sum(group))
  {
    if group == [] {
      assert before + group == before;
    } else {
      var n := |group| - 1;
      OneGroup(share, before, group[..n]);
      assert (before + group)[..|before| + n] == before + group[..n];
    }
  }

  // No way of cutting the runs, in order, into groups of at most the share has fewer.
  lemma {:induction false} GreedyLeast(share: int, groups: seq<seq<nat>>)
    requires forall i :: 0 <= i < |groups| ==> Sum(groups[i]) <= share
    ensures Used(Cut(share, Joined(groups))) <= |groups|
  {
    if groups != [] {
      var n := |groups| - 1;
      GreedyLeast(share, groups[..n]);
      OneGroup(share, Joined(groups[..n]), groups[n]);
    }
  }

  // The groups the greedy cut makes.
  function CutGroups(share: int, runs: seq<nat>): seq<seq<nat>> {
    if runs == [] then []
    else
      var n := |runs| - 1;
      var before := CutGroups(share, runs[..n]);
      var (groups, held) := Cut(share, runs[..n]);
      if before == [] || (held != 0 && held + runs[n] > share) then before + [[runs[n]]]
      else before[..|before| - 1] + [before[|before| - 1] + [runs[n]]]
  }

  // Groups of at most the share that make up the runs, as many as the cut counts, the
  // last one the open one.
  ghost predicate MakesUp(groups: seq<seq<nat>>, runs: seq<nat>, share: int, state: (nat, nat)) {
    && Joined(groups) == runs && |groups| == Used(state)
    && (forall i :: 0 <= i < |groups| ==> Sum(groups[i]) <= share)
    && (runs != [] ==> groups != [] && state.1 == Sum(groups[|groups| - 1]) > 0)
  }

  // The greedy cut is such a way itself, so the count it reports is the least one.
  lemma {:induction false} GreedyIsCut(share: int, runs: seq<nat>)
    requires share >= 1 && forall i :: 0 <= i < |runs| ==> 1 <= runs[i] <= share
    ensures MakesUp(CutGroups(share, runs), runs, share, Cut(share, runs))
  {
    if runs != [] {
      hide MakesUp;
      var n := |runs| - 1;
      GreedyIsCut(share, runs[..n]);
      var before := CutGroups(share, runs[..n]);
      assert runs == runs[..n] + [runs[n]];
      MakesUpMore(before, runs[..n], share, Cut(share, runs[..n]), runs[n]);
    }
  }

  lemma MakesUpMore(before: seq<seq<nat>>, runs: seq<nat>, share: int, state: (nat, nat), run: nat)
    requires MakesUp(before, runs, share, state) && 1 <= run <= share && (runs == [] ==> state == (0, 0))
    ensures var after := if before == [] || (state.1 != 0 && state.1 + run > share) then before + [[run]]
                         else before[..|before| - 1] + [before[|before| - 1] + [run]];
            MakesUp(after, runs + [run], share, Step(share, state.0, state.1, run))
  {
    hide Joined, Sum;
    if before == [] || (state.1 != 0 && state.1 + run > share) {
      Opened(before, run);
    } else {
      Extended(before, run);
    }
  }

  lemma Opened(before: seq<seq<nat>>, run: nat)
    ensures Joined(before + [[run]]) == Joined(before) + [run] && Sum([run]) == run
  {
    assert (before + [[run]])[..|before|] == before;
    var none: seq<nat> := [];
    assert [run][..0] == none && Sum(none) == 0;
  }

  lemma Extended(before: seq<seq<nat>>, run: nat)
    requires before != []
    ensures var n := |before| - 1;
            var after := before[..n] + [before[n] + [run]];
            Joined(after) == Joined(before) + [run] && Sum(after[n]) == Sum(before[n]) + run
  {
    var n := |before| - 1;
    var after := before[..n] + [before[n] + [run]];
    assert after[..n] == before[..n];
    assert (before[n] + [run])[..|before[n]|] == before[n];
  }

  // --- the low bound is attained ---------------------------------------------

  // Full runs and what is left.
  function FullRuns(p: nat, share: int): seq<nat>
    requires share >= 1
    decreases p
  {
    if p == 0 then [] else if p <= share then [p] else FullRuns(p - share, share) + [share]
  }

  function Singles(runs: seq<nat>): (r: seq<seq<nat>>)
    ensures |r| == |runs| && forall i :: 0 <= i < |r| ==> r[i] == [runs[i]]
  {
    seq(|runs|, i requires 0 <= i < |runs| => [runs[i]])
  }

  lemma {:induction false} FullRunsFacts(p: nat, share: int)
    requires share >= 1
    ensures var runs := FullRuns(p, share);
            && Sum(runs) == p && (forall i :: 0 <= i < |runs| ==> runs[i] <= share)
            && (if p == 0 then |runs| == 0 else (|runs| - 1) * share < p)
    decreases p
  {
    var runs := FullRuns(p, share);
    if 0 < p <= share {
      assert runs[..0] == [] && Sum([]) == 0;
    } else if p > share {
      FullRunsFacts(p - share, share);
      var before := FullRuns(p - share, share);
      assert (before + [share])[..|before|] == before;
      assert (|runs| - 1) * share == (|before| - 1) * share + share;
    }
  }

  lemma {:induction false} JoinedSingles(runs: seq<nat>)
    ensures Joined(Singles(runs)) == runs
  {
    if runs != [] {
      var n := |runs| - 1;
      JoinedSingles(runs[..n]);
      assert Singles(runs)[..n] == Singles(runs[..n]);
      assert runs == runs[..n] + [runs[n]];
    }
  }

  // For every total and share some runs within the share take exactly the low number of
  // groups, so no better bound follows from the total.
  lemma LowAttained(p: nat, share: int)
    requires share >= 1
    ensures Groups(share, FullRuns(p, share)) == AtLeastOne(CeilDiv(p, share)) && Sum(FullRuns(p, share)) == p
  {
    hide CeilDiv, FullRuns, Cut, Joined;
    var runs := FullRuns(p, share);
    FullRunsFacts(p, share);
    FieldLow(share, runs);
    forall i | 0 <= i < |runs| ensures Sum(Singles(runs)[i]) <= share { Opened([], runs[i]); }
    JoinedSingles(runs);
    GreedyLeast(share, Singles(runs));
    if p > 0 { CeilAbove(p, share, |runs| - 1); }
  }
}
