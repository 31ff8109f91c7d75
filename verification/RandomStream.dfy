/**
 A seeded pseudo-random generator: a stream whose every draw is a function of the
 current position and which leaves the stream at another position. Nothing about the
 generator's algorithm is fixed; `Lawful` states what its callers rely on.
 */
module RandomStream {

  // getrandbits over `space` values, getrandbits | 1 over twice `half` values, and
  // randrange(lo, hi).
  datatype Draw = Bits(space: nat) | OddBits(half: nat) | Range(lo: nat, hi: nat)

  predicate InSpace(d: Draw, v: nat) {
    match d
    case Bits(space) => v < space
    case OddBits(half) => v < 2 * half && v % 2 == 1
    case Range(lo, hi) => lo <= v < hi
  }

  ghost predicate Inhabited(d: Draw) {
    exists v :: InSpace(d, v)
  }

  datatype Stream = Stream(
    pull: (Draw, nat) -> (nat, nat),              // a value and the next position
    chance: nat -> (bool, nat),                   // random() < 0.02
    sample: (nat, nat, nat) -> (seq<nat>, nat))   // sample(range(n), k) at (position, n, k)

  // The j-th value of the same draw repeated from position p.
  function Nth(st: Stream, d: Draw, p: nat, j: nat): nat
    decreases j
  {
    if j == 0 then st.pull(d, p).0 else Nth(st, d, st.pull(d, p).1, j - 1)
  }

  ghost predicate Recurs(st: Stream, d: Draw, p: nat, v: nat) {
    exists j: nat :: Nth(st, d, p, j) == v
  }

  ghost predicate Distinct<T>(s: seq<T>) {
    forall i, j :: 0 <= i < j < |s| ==> s[i] != s[j]
  }

  ghost predicate SampleOf(s: seq<nat>, n: nat, k: nat) {
    |s| == k && Distinct(s) && forall i :: 0 <= i < |s| ==> s[i] < n
  }

  // Draws stay in their space, every value of a space recurs from every position, and
  // a sample has the asked number of distinct indices.
  ghost predicate Lawful(st: Stream) {
    && (forall d, p :: Inhabited(d) ==> InSpace(d, st.pull(d, p).0))
    && (forall d, p, v :: InSpace(d, v) ==> Recurs(st, d, p, v))
    && (forall p, n, k :: k <= n ==> SampleOf(st.sample(p, n, k).0, n, k))
  }

  // Redrawing from p until the value is outside `avoid` ends.
  ghost predicate Reaches(st: Stream, d: Draw, p: nat, avoid: set<nat>) {
    exists j: nat :: Nth(st, d, p, j) !in avoid
  }

  ghost predicate FirstOutside(st: Stream, d: Draw, p: nat, avoid: set<nat>, j: nat) {
    && Nth(st, d, p, j) !in avoid
    && forall i: nat :: i < j ==> Nth(st, d, p, i) in avoid
  }

  lemma {:induction false} FirstOutsideExists(st: Stream, d: Draw, p: nat, avoid: set<nat>, j: nat)
    requires Nth(st, d, p, j) !in avoid
    ensures exists i: nat :: FirstOutside(st, d, p, avoid, i)
  {
    if i: nat :| i < j && Nth(st, d, p, i) !in avoid {
      FirstOutsideExists(st, d, p, avoid, i);
    } else {
      assert FirstOutside(st, d, p, avoid, j);
    }
  }

  // How many values are rejected first.
  ghost function Wait(st: Stream, d: Draw, p: nat, avoid: set<nat>): (j: nat)
    requires Reaches(st, d, p, avoid)
    ensures FirstOutside(st, d, p, avoid, j)
  {
    var k: nat :| Nth(st, d, p, k) !in avoid;
    FirstOutsideExists(st, d, p, avoid, k);
    var j: nat :| FirstOutside(st, d, p, avoid, j);
    j
  }

  lemma WaitStep(st: Stream, d: Draw, p: nat, avoid: set<nat>)
    requires Reaches(st, d, p, avoid) && st.pull(d, p).0 in avoid
    ensures Reaches(st, d, st.pull(d, p).1, avoid)
    ensures Wait(st, d, st.pull(d, p).1, avoid) < Wait(st, d, p, avoid)
  {
    var q := st.pull(d, p).1;
    var j := Wait(st, d, p, avoid);
    assert j > 0;
    assert Nth(st, d, p, j) == Nth(st, d, q, j - 1);
    assert Nth(st, d, q, j - 1) !in avoid;
    var i := Wait(st, d, q, avoid);
    assert i <= j - 1;
  }

  // The first value outside `avoid`, and the position after it.
  function Outside(st: Stream, d: Draw, p: nat, avoid: set<nat>): (r: (nat, nat))
    requires Reaches(st, d, p, avoid)
    ensures r.0 !in avoid
    ensures Lawful(st) && Inhabited(d) ==> InSpace(d, r.0)
    decreases Wait(st, d, p, avoid)
  {
    var (v, q) := st.pull(d, p);
    if v !in avoid then (v, q)
    else
      WaitStep(st, d, p, avoid);
      Outside(st, d, q, avoid)
  }

  // A lawful stream reaches a value outside `avoid` whenever the space has one.
  lemma LawfulReaches(st: Stream, d: Draw, p: nat, avoid: set<nat>, v: nat)
    requires Lawful(st) && InSpace(d, v) && v !in avoid
    ensures Reaches(st, d, p, avoid)
  {
    assert Recurs(st, d, p, v);
    var j: nat :| Nth(st, d, p, j) == v;
  }

  lemma {:induction false} Spare(n: nat, avoid: set<nat>) returns (v: nat)
    requires |avoid| < n
    ensures v < n && v !in avoid
  {
    if n - 1 !in avoid {
      v := n - 1;
    } else {
      v := Spare(n - 1, avoid - {n - 1});
    }
  }

  function Half(x: nat): nat { x / 2 }

  lemma {:induction false} HalvesCount(avoid: set<nat>)
    ensures |set x | x in avoid :: Half(x)| <= |avoid|
  {
    if avoid != {} {
      var y :| y in avoid;
      var rest := avoid - {y};
      HalvesCount(rest);
      assert avoid == rest + {y};
      assert (set x | x in avoid :: Half(x)) == (set x | x in rest :: Half(x)) + {Half(y)};
    }
  }

  lemma SpareOdd(half: nat, avoid: set<nat>) returns (v: nat)
    requires |avoid| < half
    ensures InSpace(OddBits(half), v) && v !in avoid
  {
    var halves := set x | x in avoid :: Half(x);
    HalvesCount(avoid);
    var h := Spare(half, halves);
    v := 2 * h + 1;
    assert v in avoid ==> Half(v) in halves;
  }

  class Random {
    const stream: Stream
    var pos: nat

    constructor (stream: Stream)
      ensures this.stream == stream && pos == 0
    {
      this.stream := stream;
      pos := 0;
    }

    method Draw(d: Draw) returns (v: nat)
      modifies this
      ensures (v, pos) == stream.pull(d, old(pos))
    {
      var (w, q) := stream.pull(d, pos);
      v := w;
      pos := q;
    }

    method Chance() returns (b: bool)
      modifies this
      ensures (b, pos) == stream.chance(old(pos))
    {
      var (c, q) := stream.chance(pos);
      b := c;
      pos := q;
    }

    method Sample(n: nat, k: nat) returns (s: seq<nat>)
      modifies this
      ensures (s, pos) == stream.sample(old(pos), n, k)
    {
      var (t, q) := stream.sample(pos, n, k);
      s := t;
      pos := q;
    }

    // Draw, and redraw while the value is in `avoid`.
    method DrawOutside(d: Draw, avoid: set<nat>) returns (v: nat)
      requires Reaches(stream, d, pos, avoid)
      modifies this
      ensures (v, pos) == Outside(stream, d, old(pos), avoid)
    {
      ghost var p := pos;
      v := Draw(d);
      while v in avoid
        invariant Reaches(stream, d, p, avoid) && (v, pos) == stream.pull(d, p)
        invariant Outside(stream, d, p, avoid) == Outside(stream, d, old(pos), avoid)
        decreases Wait(stream, d, p, avoid)
      {
        WaitStep(stream, d, p, avoid);
        p := pos;
        v := Draw(d);
      }
    }
  }
}
