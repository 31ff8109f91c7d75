/**
 Rendezvous ranking of replicas for a tenant. The digest is a parameter: nothing here
 depends on which hash it is. The ranking is a permutation fixed by the multiset of
 replicas, and one replica joining or leaving moves no other.
 */
module Affinity {
  import opened Sorting
  import opened Wire

  type Digest = Bytes -> Bytes

  // --- score -----------------------------------------------------------------

  // A hasher remembers what it was fed; what its digest is, is the hash's business.
  class Hasher {
    var fed: Bytes

    constructor ()
      ensures fed == []
    {
      fed := [];
    }

    method Update(b: Bytes)
      modifies this
      ensures fed == old(fed) + b
    {
      fed := fed + b;
    }

    method Finalize(digest: Digest) returns (d: Bytes)
      ensures d == digest(fed)
    {
      d := digest(fed);
    }
  }

  // The tenant behind its length, then the replica. The length is cast to 64 bits.
  function HashInput(tenant: Bytes, replica: Bytes): Bytes {
    Fixed(|tenant| % U64, 8) + tenant + replica
  }

  // No two pairs are hashed alike: the input can be split one way only.
  lemma HashInputInjective(t: Bytes, r: Bytes, t': Bytes, r': Bytes)
    requires |t| < U64 && |t'| < U64
    requires HashInput(t, r) == HashInput(t', r')
    ensures t == t' && r == r'
  {
    hide Fixed, ReadFixed, Pow256;
    var b, b' := HashInput(t, r), HashInput(t', r');
    EightBytes();
    FixedRoundTrip(|t|, 8);
    FixedRoundTrip(|t'|, 8);
    assert b[..8] == Fixed(|t|, 8) && b'[..8] == Fixed(|t'|, 8);
    assert b[8..8 + |t|] == t && b'[8..8 + |t'|] == t';
    assert b[8 + |t|..] == r && b'[8 + |t'|..] == r';
  }

  function ScoreOf(digest: Digest, tenant: Bytes, replica: Bytes): Bytes { digest(HashInput(tenant, replica)) }

  method Score(digest: Digest, tenant: Bytes, replica: Bytes) returns (s: Bytes)
    ensures s == ScoreOf(digest, tenant, replica)
  {
    hide Fixed;
    var hasher := new Hasher();
    hasher.Update(Fixed(|tenant| % U64, 8));
    hasher.Update(tenant);
    hasher.Update(replica);
    assert hasher.fed == HashInput(tenant, replica);
    s := hasher.Finalize(digest);
  }

  // --- rank ------------------------------------------------------------------

  datatype Scored = Scored(score: Bytes, replica: Bytes)

  // Score descending, then replica bytes ascending.
  predicate Ahead(p: Scored, q: Scored) {
    if p.score != q.score then LexLeq(q.score, p.score, Smaller) else LexLeq(p.replica, q.replica, Smaller)
  }

  lemma AheadTransitive(p: Scored, q: Scored, r: Scored)
    requires Ahead(p, q) && Ahead(q, r)
    ensures Ahead(p, r)
  {
    hide LexLeq;
    if p.score == q.score == r.score {
      LexTransitive(p.replica, q.replica, r.replica, Smaller);
    } else if p.score != q.score && q.score != r.score {
      LexTransitive(r.score, q.score, p.score, Smaller);
      if p.score == r.score { LexAntisymmetric(p.score, q.score, Smaller); }
    }
  }

  lemma AheadOrder()
    ensures TotalPreorder(Ahead) && Antisymmetric(Ahead)
  {
    hide LexLeq;
    forall p, q ensures Ahead(p, q) || Ahead(q, p) {
      LexTotal(p.score, q.score, Smaller);
      LexTotal(p.replica, q.replica, Smaller);
    }
    forall p, q, r | Ahead(p, q) && Ahead(q, r) ensures Ahead(p, r) { AheadTransitive(p, q, r); }
    forall p, q | Ahead(p, q) && Ahead(q, p) ensures p == q {
      if p.score == q.score {
        LexAntisymmetric(p.replica, q.replica, Smaller);
      } else {
        LexAntisymmetric(p.score, q.score, Smaller);
      }
    }
  }

  function ScoreAll(digest: Digest, tenant: Bytes, replicas: seq<Bytes>): (r: seq<Scored>)
    ensures |r| == |replicas|
  {
    if replicas == [] then []
    else
      var n := |replicas| - 1;
      ScoreAll(digest, tenant, replicas[..n]) + [Scored(ScoreOf(digest, tenant, replicas[n]), replicas[n])]
  }

  function Replicas(scored: seq<Scored>): (r: seq<Bytes>)
    ensures |r| == |scored|
    ensures forall i :: 0 <= i < |r| ==> r[i] == scored[i].replica
  {
    seq(|scored|, i requires 0 <= i < |scored| => scored[i].replica)
  }

  function Ranked(digest: Digest, tenant: Bytes, replicas: seq<Bytes>): (r: seq<Bytes>)
    ensures |r| == |replicas|
  {
    Replicas(Sort(ScoreAll(digest, tenant, replicas), Ahead))
  }

  method Rank(digest: Digest, tenant: Bytes, replicas: seq<Bytes>) returns (ranking: seq<Bytes>)
    ensures ranking == Ranked(digest, tenant, replicas)
  {
    hide ScoreOf, Sort;
    var scored: seq<Scored> := [];
    for i := 0 to |replicas|
      invariant scored == ScoreAll(digest, tenant, replicas[..i])
    {
      assert replicas[..i + 1][..i] == replicas[..i];
      var s := Score(digest, tenant, replicas[i]);
      scored := scored + [Scored(s, replicas[i])];
    }
    assert replicas[..|replicas|] == replicas;
    scored := Sort(scored, Ahead);
    ranking := Replicas(scored);
  }

  // --- what the ranking is ---------------------------------------------------

  // Each pair carries its own replica's score.
  ghost predicate Genuine(digest: Digest, tenant: Bytes, scored: seq<Scored>) {
    forall i :: 0 <= i < |scored| ==> scored[i].score == ScoreOf(digest, tenant, scored[i].replica)
  }

  lemma {:induction false} ScoredGenuine(digest: Digest, tenant: Bytes, replicas: seq<Bytes>)
    ensures Genuine(digest, tenant, ScoreAll(digest, tenant, replicas))
    ensures Replicas(ScoreAll(digest, tenant, replicas)) == replicas
  {
    hide ScoreOf;
    if replicas != [] { ScoredGenuine(digest, tenant, replicas[..|replicas| - 1]); }
  }

  // In a genuine list a replica occurs as often as its pair.
  lemma {:induction false} GenuineCounts(digest: Digest, tenant: Bytes, scored: seq<Scored>, r: Bytes)
    requires Genuine(digest, tenant, scored)
    ensures multiset(Replicas(scored))[r] == multiset(scored)[Scored(ScoreOf(digest, tenant, r), r)]
  {
    hide ScoreOf;
    if scored != [] {
      var n := |scored| - 1;
      GenuineCounts(digest, tenant, scored[..n], r);
      assert scored == scored[..n] + [scored[n]];
      assert Replicas(scored) == Replicas(scored[..n]) + [scored[n].replica];
    }
  }

  lemma GenuineKept(digest: Digest, tenant: Bytes, s: seq<Scored>, t: seq<Scored>)
    requires Genuine(digest, tenant, s) && multiset(s) >= multiset(t)
    ensures Genuine(digest, tenant, t)
  {
    hide ScoreOf;
    forall i | 0 <= i < |t| ensures t[i].score == ScoreOf(digest, tenant, t[i].replica) {
      assert t[i] in multiset(t);
      assert t[i] in multiset(s);
      var j :| 0 <= j < |s| && s[j] == t[i];
    }
  }

  // Genuine lists of the same replicas hold the same pairs.
  lemma GenuineSame(digest: Digest, tenant: Bytes, s: seq<Scored>, t: seq<Scored>)
    requires Genuine(digest, tenant, s) && Genuine(digest, tenant, t)
    requires multiset(Replicas(s)) == multiset(Replicas(t))
    ensures multiset(s) == multiset(t)
  {
    hide ScoreOf;
    forall p ensures multiset(s)[p] == multiset(t)[p] {
      if p.score == ScoreOf(digest, tenant, p.replica) {
        GenuineCounts(digest, tenant, s, p.replica);
        GenuineCounts(digest, tenant, t, p.replica);
      } else {
        assert p !in s && p !in t;
      }
    }
  }

  // The ranking's pairs: sorted, genuine, over the same replicas.
  lemma RankingFacts(digest: Digest, tenant: Bytes, replicas: seq<Bytes>)
    ensures var s := Sort(ScoreAll(digest, tenant, replicas), Ahead);
            && Sorted(s, Ahead) && Genuine(digest, tenant, s) && multiset(Replicas(s)) == multiset(replicas)
  {
    hide ScoreOf, Sort, Ahead, ScoreAll;
    var t := ScoreAll(digest, tenant, replicas);
    var s := Sort(t, Ahead);
    AheadOrder();
    SortSorted(t, Ahead);
    ScoredGenuine(digest, tenant, replicas);
    GenuineKept(digest, tenant, t, s);
    forall r ensures multiset(Replicas(s))[r] == multiset(Replicas(t))[r] {
      GenuineCounts(digest, tenant, s, r);
      GenuineCounts(digest, tenant, t, r);
    }
  }

  // Any list that is sorted by score and bytes and holds the replicas is the ranking.
  lemma RankingUnique(digest: Digest, tenant: Bytes, replicas: seq<Bytes>, s: seq<Scored>)
    requires Sorted(s, Ahead) && Genuine(digest, tenant, s) && multiset(Replicas(s)) == multiset(replicas)
    ensures Ranked(digest, tenant, replicas) == Replicas(s)
  {
    hide ScoreOf, Sort, Ahead, ScoreAll, Genuine, Sorted;
    RankingFacts(digest, tenant, replicas);
    var t := Sort(ScoreAll(digest, tenant, replicas), Ahead);
    GenuineSame(digest, tenant, s, t);
    AheadOrder();
    SortedUnique(s, t, Ahead);
  }

  // The ranking is a permutation, ordered by score descending and then bytes ascending.
  lemma RankPermutes(digest: Digest, tenant: Bytes, replicas: seq<Bytes>)
    ensures var r := Ranked(digest, tenant, replicas);
            && multiset(r) == multiset(replicas)
            && forall i, j :: 0 <= i < j < |r| ==>
                 Ahead(Scored(ScoreOf(digest, tenant, r[i]), r[i]), Scored(ScoreOf(digest, tenant, r[j]), r[j]))
  {
    hide ScoreOf, Sort, Ahead, ScoreAll;
    RankingFacts(digest, tenant, replicas);
    var s := Sort(ScoreAll(digest, tenant, replicas), Ahead);
    var r := Replicas(s);
    forall i, j | 0 <= i < j < |r|
      ensures Ahead(Scored(ScoreOf(digest, tenant, r[i]), r[i]), Scored(ScoreOf(digest, tenant, r[j]), r[j]))
    {
      assert s[i] == Scored(ScoreOf(digest, tenant, r[i]), r[i]) && s[j] == Scored(ScoreOf(digest, tenant, r[j]), r[j]);
    }
  }

  // The order the replicas are supplied in does not matter.
  lemma RankOrderFree(digest: Digest, tenant: Bytes, a: seq<Bytes>, b: seq<Bytes>)
    requires multiset(a) == multiset(b)
    ensures Ranked(digest, tenant, a) == Ranked(digest, tenant, b)
  {
    hide ScoreOf, Sort, Ahead, ScoreAll, Genuine, Sorted;
    RankingFacts(digest, tenant, b);
    RankingUnique(digest, tenant, a, Sort(ScoreAll(digest, tenant, b), Ahead));
  }

  // --- one replica more or less ----------------------------------------------

  // Position of the first occurrence.
  function First(s: seq<Bytes>, x: Bytes): (k: nat)
    requires x in s
    ensures k < |s| && s[k] == x && forall i :: 0 <= i < k ==> s[i] != x
  {
    if s[0] == x then 0 else 1 + First(s[1..], x)
  }

  // A genuine sorted list stays one when it loses a pair.
  lemma WithoutRanked(digest: Digest, tenant: Bytes, s: seq<Scored>, k: nat)
    requires k < |s| && Sorted(s, Ahead) && Genuine(digest, tenant, s)
    ensures Sorted(Without(s, k), Ahead) && Genuine(digest, tenant, Without(s, k))
    ensures Replicas(Without(s, k)) == Without(Replicas(s), k)
  {
    hide ScoreOf, Ahead;
  }

  // Taking one replica away takes its place out of the ranking and moves nothing else.
  lemma OneRemoved(digest: Digest, tenant: Bytes, all: seq<Bytes>, rest: seq<Bytes>, x: Bytes)
    requires multiset(all) == multiset(rest) + multiset{x}
    ensures x in Ranked(digest, tenant, all)
    ensures var r := Ranked(digest, tenant, all);
            Ranked(digest, tenant, rest) == Without(r, First(r, x))
  {
    hide ScoreOf, Sort, Ahead, ScoreAll, Genuine, Sorted, Without, First;
    RankingFacts(digest, tenant, all);
    var s := Sort(ScoreAll(digest, tenant, all), Ahead);
    var r := Replicas(s);
    assert x in multiset(r);
    var k := First(r, x);
    WithoutRanked(digest, tenant, s, k);
    RankingUnique(digest, tenant, rest, Without(s, k));
  }

  // --- subset ----------------------------------------------------------------

  function Subset(digest: Digest, tenant: Bytes, replicas: seq<Bytes>, size: nat): seq<Bytes> {
    Take(Ranked(digest, tenant, replicas), size)
  }

  function Take(r: seq<Bytes>, size: nat): seq<Bytes> { if size < |r| then r[..size] else r }

  // A replica outside the subset leaves it as it is; one inside gives its place to the
  // next in rank, if there is one. Read the other way, this is a replica joining.
  lemma BoundedReassignment(digest: Digest, tenant: Bytes, all: seq<Bytes>, rest: seq<Bytes>, x: Bytes, size: nat)
    requires multiset(all) == multiset(rest) + multiset{x}
    ensures var before, after := Subset(digest, tenant, all, size), Subset(digest, tenant, rest, size);
            var r := Ranked(digest, tenant, all);
            if x !in before then after == before
            else after == Without(before, First(before, x)) + if size < |r| then [r[size]] else []
  {
    hide Ranked, Without, First, Take;
    OneRemoved(digest, tenant, all, rest, x);
    TakeWithout(Ranked(digest, tenant, all), x, size);
  }

  lemma TakeWithout(r: seq<Bytes>, x: Bytes, size: nat)
    requires x in r
    ensures var before, after := Take(r, size), Take(Without(r, First(r, x)), size);
            if x !in before then after == before
            else after == Without(before, First(before, x)) + if size < |r| then [r[size]] else []
  {
    hide First;
    var k, before := First(r, x), Take(r, size);
    if x in before {
      var j := First(before, x);
      assert before[j] == r[j] && j == k;
    } else if size < |r| {
      assert forall i :: 0 <= i < size ==> r[i] == before[i] && before[i] in before;
    }
  }

  // At most x leaves and at most one comes.
  ghost predicate OneChange(before: multiset<Bytes>, after: multiset<Bytes>, x: Bytes) {
    before - after <= multiset{x} && |after - before| <= 1
  }

  lemma AtMostOneEachWay(digest: Digest, tenant: Bytes, all: seq<Bytes>, rest: seq<Bytes>, x: Bytes, size: nat)
    requires multiset(all) == multiset(rest) + multiset{x}
    ensures OneChange(multiset(Subset(digest, tenant, all, size)), multiset(Subset(digest, tenant, rest, size)), x)
  {
    hide Subset, Ranked, Without, First, OneChange;
    BoundedReassignment(digest, tenant, all, rest, x, size);
    var a := Subset(digest, tenant, all, size);
    var r := Ranked(digest, tenant, all);
    if x in a {
      OneSwapped(a, First(a, x), if size < |r| then [r[size]] else []);
    } else {
      NoChange(multiset(a), x);
    }
  }

  lemma NoChange(m: multiset<Bytes>, x: Bytes)
    ensures OneChange(m, m, x)
  {
    assert m - m == multiset{};
  }

  lemma OneSwapped(a: seq<Bytes>, k: nat, next: seq<Bytes>)
    requires k < |a| && |next| <= 1
    ensures OneChange(multiset(a), multiset(Without(a, k) + next), a[k])
  {
    hide Without, OneChange;
    var kept := Without(a, k);
    if next == [] {
      assert kept + next == kept;
      OneLost(multiset(kept), a[k]);
    } else {
      assert next == [next[0]];
      OneReplaced(multiset(kept), a[k], next[0]);
    }
  }

  lemma OneLost(kept: multiset<Bytes>, x: Bytes)
    ensures OneChange(kept + multiset{x}, kept, x)
  {
    assert kept - (kept + multiset{x}) == multiset{};
  }

  lemma OneReplaced(kept: multiset<Bytes>, x: Bytes, y: Bytes)
    ensures OneChange(kept + multiset{x}, kept + multiset{y}, x)
  {
    var more := kept + multiset{y} - (kept + multiset{x});
    assert more == if x == y then multiset{} else multiset{y};
  }
}
