/**
 Where the three needle tiers go: one row in each of a tier's sampled blocks, no row
 with two needles. The redraw loop ends on every stream exactly when the last block
 has a row for each tier.
 */
module CorpusNeedles {
  import opened Numbers
  import opened RandomStream
  import opened Sorting
  import opened CorpusTraces

  const BLOCK_ROWS: nat := 8192

  datatype Needle = Rare | Sparse | Common

  // Blocks per tier.
  datatype Counts = Counts(rare: nat, sparse: nat, common: nat)

  // The rows of each tier, in the order of its blocks.
  datatype Plan = Plan(rare: seq<nat>, sparse: seq<nat>, common: seq<nat>)

  function Blocks(rows: nat): nat {
    (rows + BLOCK_ROWS - 1) / BLOCK_ROWS
  }

  // The size of the last block.
  function LastBlockRows(rows: nat): nat
    requires rows > 0
  {
    rows - (Blocks(rows) - 1) * BLOCK_ROWS
  }

  // num / den rounded to the nearest integer, a tie to the even one.
  function RoundHalfEven(num: nat, den: nat): nat
    requires den > 0
  {
    var q, r := num / den, num % den;
    if 2 * r < den then q
    else if 2 * r > den then q + 1
    else if q % 2 == 0 then q else q + 1
  }

  function BlockCounts(rows: nat): Counts {
    var n := Blocks(rows);
    var sparse := Min(Max(2, RoundHalfEven(n, 1000)), n);
    var common := Min(Max(sparse + 1, RoundHalfEven(n, 10)), n);
    Counts(Min(1, n), sparse, common)
  }

  // Rounding gives a nearest whole number, and of two the even one.
  lemma RoundsNearest(num: nat, den: nat)
    requires den > 0
    ensures var r := RoundHalfEven(num, den);
            && -(den as int) <= 2 * (den * r - num) <= den
            && (2 * (den * r - num) == den || 2 * (num - den * r) == den ==> r % 2 == 0)
  {
    var q, r := num / den, num % den;
    assert num == den * q + r;
    assert den * (q + 1) == den * q + den;
  }

  // Once there are blocks enough, the tiers are a tenth of a percent and ten percent of
  // them, to the nearest block.
  lemma TierShares(rows: nat)
    requires Blocks(rows) >= 3000
    ensures var c := BlockCounts(rows); var n := Blocks(rows);
            c.rare == 1 && -500 <= 1000 * c.sparse - n <= 500 && -5 <= 10 * c.common - n <= 5
  {
    var n := Blocks(rows);
    RoundsNearest(n, 1000);
    RoundsNearest(n, 10);
  }

  // Every tier fits the corpus, and with three blocks or more rare < sparse < common.
  lemma TiersOrdered(rows: nat)
    ensures var c := BlockCounts(rows); var n := Blocks(rows);
            && c.rare <= c.sparse <= c.common <= n
            && (n >= 3 ==> 1 == c.rare < c.sparse < c.common)
            && (n < 3 ==> c.sparse == c.common == n)
  {
    var n := Blocks(rows);
    assert n >= 3 ==> RoundHalfEven(n, 1000) < n;
  }

  // --- one tier --------------------------------------------------------------

  function BlockRange(b: nat, rows: nat): Draw {
    Range(b * BLOCK_ROWS, Min((b + 1) * BLOCK_ROWS, rows))
  }

  function Elements(s: seq<nat>): set<nat> {
    set r | r in s
  }

  // The redraw loop ends at every block of the tier.
  ghost predicate TierEnds(st: Stream, p: nat, blocks: seq<nat>, rows: nat, used: set<nat>)
    decreases |blocks|, 0
  {
    blocks == [] ||
    var n := |blocks| - 1;
    && TierEnds(st, p, blocks[..n], rows, used)
    && var t := Tier(st, p, blocks[..n], rows, used);
       Reaches(st, BlockRange(blocks[n], rows), t.1, used + Elements(t.0))
  }

  // The tier's rows, one per block in order, and the position after them.
  function Tier(st: Stream, p: nat, blocks: seq<nat>, rows: nat, used: set<nat>): (t: (seq<nat>, nat))
    requires TierEnds(st, p, blocks, rows, used)
    ensures |t.0| == |blocks|
    decreases |blocks|, 1
  {
    if blocks == [] then ([], p)
    else
      var n := |blocks| - 1;
      var (rs, q) := Tier(st, p, blocks[..n], rows, used);
      var (r, q') := Outside(st, BlockRange(blocks[n], rows), q, used + Elements(rs));
      (rs + [r], q')
  }

  ghost predicate ValidBlocks(blocks: seq<nat>, rows: nat) {
    Distinct(blocks) && forall i :: 0 <= i < |blocks| ==> blocks[i] < Blocks(rows)
  }

  // Row i lies in block i, the rows are distinct, and none was used before.
  ghost predicate OnePerBlock(rs: seq<nat>, blocks: seq<nat>, rows: nat, used: set<nat>) {
    && |rs| == |blocks|
    && (forall i :: 0 <= i < |rs| ==> rs[i] < rows && rs[i] / BLOCK_ROWS == blocks[i] && rs[i] !in used)
    && Distinct(rs)
  }

  lemma BlockRangeFacts(b: nat, rows: nat)
    requires b < Blocks(rows)
    ensures Inhabited(BlockRange(b, rows))
    ensures forall r: nat :: InSpace(BlockRange(b, rows), r) <==> r < rows && r / BLOCK_ROWS == b
  {
    assert InSpace(BlockRange(b, rows), b * BLOCK_ROWS);
  }

  lemma {:induction false} TierFacts(st: Stream, p: nat, blocks: seq<nat>, rows: nat, used: set<nat>)
    requires Lawful(st) && ValidBlocks(blocks, rows) && TierEnds(st, p, blocks, rows, used)
    ensures OnePerBlock(Tier(st, p, blocks, rows, used).0, blocks, rows, used)
  {
    hide Lawful, BlockRange, Elements;
    if blocks != [] {
      var n := |blocks| - 1;
      TierFacts(st, p, blocks[..n], rows, used);
      var (rs, q) := Tier(st, p, blocks[..n], rows, used);
      BlockRangeFacts(blocks[n], rows);
      var r := Outside(st, BlockRange(blocks[n], rows), q, used + Elements(rs)).0;
      assert InSpace(BlockRange(blocks[n], rows), r);
      AppendRow(rs, r, blocks, rows, used);
    }
  }

  lemma AppendRow(rs: seq<nat>, r: nat, blocks: seq<nat>, rows: nat, used: set<nat>)
    requires blocks != [] && OnePerBlock(rs, blocks[..|blocks| - 1], rows, used)
    requires r < rows && r / BLOCK_ROWS == blocks[|blocks| - 1] && r !in used + Elements(rs)
    ensures OnePerBlock(rs + [r], blocks, rows, used)
  {
    assert forall i :: 0 <= i < |rs| ==> rs[i] in Elements(rs);
  }

  // Block b has a row outside `used`.
  ghost predicate RoomIn(b: nat, rows: nat, used: set<nat>) {
    exists r: nat :: InSpace(BlockRange(b, rows), r) && r !in used
  }

  lemma {:induction false} TierEndsWithRoom(st: Stream, p: nat, blocks: seq<nat>, rows: nat, used: set<nat>)
    requires Lawful(st) && ValidBlocks(blocks, rows)
    requires forall i :: 0 <= i < |blocks| ==> RoomIn(blocks[i], rows, used)
    ensures TierEnds(st, p, blocks, rows, used)
  {
    hide Lawful, BlockRange, Elements;
    if blocks != [] {
      var n := |blocks| - 1;
      TierEndsWithRoom(st, p, blocks[..n], rows, used);
      TierFacts(st, p, blocks[..n], rows, used);
      var t := Tier(st, p, blocks[..n], rows, used);
      assert RoomIn(blocks[n], rows, used);
      var r: nat :| InSpace(BlockRange(blocks[n], rows), r) && r !in used;
      OtherBlock(t.0, blocks[..n], rows, used, blocks[n], r);
      LawfulReaches(st, BlockRange(blocks[n], rows), t.1, used + Elements(t.0), r);
    }
  }

  lemma OtherBlock(rs: seq<nat>, blocks: seq<nat>, rows: nat, used: set<nat>, b: nat, r: nat)
    requires OnePerBlock(rs, blocks, rows, used) && b < Blocks(rows) && b !in blocks
    requires InSpace(BlockRange(b, rows), r)
    ensures r !in Elements(rs)
  {
    BlockRangeFacts(b, rows);
    assert forall i :: 0 <= i < |rs| ==> rs[i] / BLOCK_ROWS == blocks[i] && blocks[i] in blocks;
  }

  // A block with no row left stops the loop from ending.
  lemma {:induction false} TierStuck(st: Stream, p: nat, blocks: seq<nat>, rows: nat, used: set<nat>, i: nat)
    requires Lawful(st) && ValidBlocks(blocks, rows) && i < |blocks| && !RoomIn(blocks[i], rows, used)
    ensures !TierEnds(st, p, blocks, rows, used)
  {
    var n := |blocks| - 1;
    if i < n {
      TierStuck(st, p, blocks[..n], rows, used, i);
    } else if TierEnds(st, p, blocks[..n], rows, used) {
      var t := Tier(st, p, blocks[..n], rows, used);
      BlockRangeFacts(blocks[n], rows);
      forall j: nat ensures Nth(st, BlockRange(blocks[n], rows), t.1, j) in used {
        NthInSpace(st, BlockRange(blocks[n], rows), t.1, j);
      }
    }
  }

  lemma {:induction false} NthInSpace(st: Stream, d: Draw, p: nat, j: nat)
    requires Lawful(st) && Inhabited(d)
    ensures InSpace(d, Nth(st, d, p, j))
    decreases j
  {
    if j > 0 { NthInSpace(st, d, st.pull(d, p).1, j - 1); }
  }

  // --- plan_needles ----------------------------------------------------------

  // The tier's blocks, ascending, and the position after the sample.
  function TierBlocks(st: Stream, p: nat, rows: nat, k: nat): (seq<nat>, nat) {
    var (s, q) := st.sample(p, Blocks(rows), k);
    (Sort(s, Leq), q)
  }

  lemma TierBlocksValid(st: Stream, p: nat, rows: nat, k: nat)
    requires Lawful(st) && k <= Blocks(rows)
    ensures ValidBlocks(TierBlocks(st, p, rows, k).0, rows) && |TierBlocks(st, p, rows, k).0| == k
  {
    var s: seq<nat> := st.sample(p, Blocks(rows), k).0;
    assert SampleOf(st.sample(p, Blocks(rows), k).0, Blocks(rows), k);
    SortedDistinct(s);
    var t: seq<nat> := Sort(s, Leq);
    forall i | 0 <= i < |t| ensures t[i] < Blocks(rows) {
      assert t[i] in multiset(t) && t[i] in s;
    }
  }

  ghost predicate PlanEnds(st: Stream, p: nat, rows: nat) {
    rows < BLOCK_ROWS ||
    var c := BlockCounts(rows);
    var (b1, p1) := TierBlocks(st, p, rows, c.rare);
    TierEnds(st, p1, b1, rows, {}) &&
    var (r1, q1) := Tier(st, p1, b1, rows, {});
    var (b2, p2) := TierBlocks(st, q1, rows, c.sparse);
    TierEnds(st, p2, b2, rows, Elements(r1)) &&
    var (r2, q2) := Tier(st, p2, b2, rows, Elements(r1));
    var (b3, p3) := TierBlocks(st, q2, rows, c.common);
    TierEnds(st, p3, b3, rows, Elements(r1) + Elements(r2))
  }

  function NeedlePlan(st: Stream, p: nat, rows: nat): (Plan, nat)
    requires PlanEnds(st, p, rows)
  {
    if rows < BLOCK_ROWS then (Plan([], [], []), p) else
    var c := BlockCounts(rows);
    var (b1, p1) := TierBlocks(st, p, rows, c.rare);
    var (r1, q1) := Tier(st, p1, b1, rows, {});
    var (b2, p2) := TierBlocks(st, q1, rows, c.sparse);
    var (r2, q2) := Tier(st, p2, b2, rows, Elements(r1));
    var (b3, p3) := TierBlocks(st, q2, rows, c.common);
    var (r3, q3) := Tier(st, p3, b3, rows, Elements(r1) + Elements(r2));
    (Plan(r1, r2, r3), q3)
  }

  // The distinct blocks a tier's rows fall in.
  function BlocksOf(rs: seq<nat>): set<nat> {
    set i | 0 <= i < |rs| :: rs[i] / BLOCK_ROWS
  }

  lemma {:induction false} DistinctCount(blocks: seq<nat>)
    requires Distinct(blocks)
    ensures |Elements(blocks)| == |blocks|
  {
    if blocks != [] {
      var n := |blocks| - 1;
      DistinctCount(blocks[..n]);
      assert blocks[n] !in blocks[..n];
      assert Elements(blocks) == Elements(blocks[..n]) + {blocks[n]};
    }
  }

  lemma TierSpread(rs: seq<nat>, blocks: seq<nat>, rows: nat, used: set<nat>)
    requires OnePerBlock(rs, blocks, rows, used) && Distinct(blocks)
    ensures |BlocksOf(rs)| == |blocks| && Elements(rs) !! used && |Elements(rs)| == |blocks|
    ensures forall r :: r in rs ==> r < rows
  {
    DistinctCount(blocks);
    DistinctCount(rs);
    assert BlocksOf(rs) == Elements(blocks);
  }

  // No row carries two needles, and each tier's rows fall in exactly its planned number
  // of distinct blocks, one row in each.
  lemma PlanFacts(st: Stream, p: nat, rows: nat)
    requires Lawful(st) && rows >= BLOCK_ROWS && PlanEnds(st, p, rows)
    ensures var plan := NeedlePlan(st, p, rows).0; var c := BlockCounts(rows);
            && Elements(plan.rare) !! Elements(plan.sparse) !! Elements(plan.common)
            && |BlocksOf(plan.rare)| == |Elements(plan.rare)| == |plan.rare| == c.rare
            && |BlocksOf(plan.sparse)| == |Elements(plan.sparse)| == |plan.sparse| == c.sparse
            && |BlocksOf(plan.common)| == |Elements(plan.common)| == |plan.common| == c.common
            && (forall r :: r in plan.rare + plan.sparse + plan.common ==> r < rows)
  {
    hide Lawful, TierBlocks, BlockCounts, Blocks, Elements, BlocksOf, TierEnds, Tier, OnePerBlock, Distinct;
    var c := BlockCounts(rows);
    TiersOrdered(rows);
    var (b1, p1) := TierBlocks(st, p, rows, c.rare);
    TierBlocksValid(st, p, rows, c.rare);
    TierFacts(st, p1, b1, rows, {});
    var (r1, q1) := Tier(st, p1, b1, rows, {});
    TierSpread(r1, b1, rows, {});
    var (b2, p2) := TierBlocks(st, q1, rows, c.sparse);
    TierBlocksValid(st, q1, rows, c.sparse);
    TierFacts(st, p2, b2, rows, Elements(r1));
    var (r2, q2) := Tier(st, p2, b2, rows, Elements(r1));
    TierSpread(r2, b2, rows, Elements(r1));
    var (b3, p3) := TierBlocks(st, q2, rows, c.common);
    TierBlocksValid(st, q2, rows, c.common);
    TierFacts(st, p3, b3, rows, Elements(r1) + Elements(r2));
    TierSpread(Tier(st, p3, b3, rows, Elements(r1) + Elements(r2)).0, b3, rows, Elements(r1) + Elements(r2));
  }

  // --- when the redraw loop ends ---------------------------------------------

  // At most one row of a tier lies in a block.
  lemma SameBlockSameRow(rs: seq<nat>, blocks: seq<nat>, rows: nat, used: set<nat>, x: nat, y: nat)
    requires OnePerBlock(rs, blocks, rows, used) && Distinct(blocks)
    requires x in rs && y in rs && x / BLOCK_ROWS == y / BLOCK_ROWS
    ensures x == y
  {
    var i :| 0 <= i < |rs| && rs[i] == x;
    var j :| 0 <= j < |rs| && rs[j] == y;
    assert blocks[i] == blocks[j];
  }

  // A block of three rows keeps one after two tiers.
  lemma RoomAfterTwo(b: nat, rows: nat, ra: seq<nat>, ba: seq<nat>, rb: seq<nat>, bb: seq<nat>, used: set<nat>)
    requires b < Blocks(rows) && LastBlockRows(rows) >= 3
    requires OnePerBlock(ra, ba, rows, {}) && Distinct(ba) && OnePerBlock(rb, bb, rows, used) && Distinct(bb)
    ensures RoomIn(b, rows, Elements(ra) + Elements(rb))
  {
    var x := b * BLOCK_ROWS;
    BlockRangeFacts(b, rows);
    assert InSpace(BlockRange(b, rows), x) && InSpace(BlockRange(b, rows), x + 1)
           && InSpace(BlockRange(b, rows), x + 2);
    forall u, v | u in {x, x + 1, x + 2} && v in {x, x + 1, x + 2} && u != v
      ensures !(u in ra && v in ra) && !(u in rb && v in rb)
    {
      if u in ra && v in ra { SameBlockSameRow(ra, ba, rows, {}, u, v); }
      if u in rb && v in rb { SameBlockSameRow(rb, bb, rows, used, u, v); }
    }
  }

  lemma EndsWithThreeRows(st: Stream, p: nat, rows: nat)
    requires Lawful(st) && rows >= BLOCK_ROWS && LastBlockRows(rows) >= 3
    ensures PlanEnds(st, p, rows)
  {
    hide Lawful, TierBlocks, BlockCounts, Blocks, Elements, TierEnds, Tier, OnePerBlock, Distinct, LastBlockRows,
         RoomIn;
    var c := BlockCounts(rows);
    TiersOrdered(rows);
    var (b1, p1) := TierBlocks(st, p, rows, c.rare);
    TierBlocksValid(st, p, rows, c.rare);
    NoneOnePerBlock(rows);
    forall i | 0 <= i < |b1| ensures RoomIn(b1[i], rows, {}) {
      RoomAfterTwo(b1[i], rows, [], [], [], [], {});
      assert Elements([]) + Elements([]) == {};
    }
    TierEndsWithRoom(st, p1, b1, rows, {});
    TierFacts(st, p1, b1, rows, {});
    var (r1, q1) := Tier(st, p1, b1, rows, {});
    var (b2, p2) := TierBlocks(st, q1, rows, c.sparse);
    TierBlocksValid(st, q1, rows, c.sparse);
    forall i | 0 <= i < |b2| ensures RoomIn(b2[i], rows, Elements(r1)) {
      RoomAfterTwo(b2[i], rows, r1, b1, [], [], {});
      assert Elements(r1) + Elements([]) == Elements(r1);
    }
    TierEndsWithRoom(st, p2, b2, rows, Elements(r1));
    TierFacts(st, p2, b2, rows, Elements(r1));
    var (r2, q2) := Tier(st, p2, b2, rows, Elements(r1));
    var (b3, p3) := TierBlocks(st, q2, rows, c.common);
    TierBlocksValid(st, q2, rows, c.common);
    forall i | 0 <= i < |b3| ensures RoomIn(b3[i], rows, Elements(r1) + Elements(r2)) {
      RoomAfterTwo(b3[i], rows, r1, b1, r2, b2, Elements(r1));
    }
    TierEndsWithRoom(st, p3, b3, rows, Elements(r1) + Elements(r2));
  }

  lemma NoneOnePerBlock(rows: nat)
    ensures OnePerBlock([], [], rows, {}) && Distinct<nat>([]) && Elements([]) == {}
  {
  }

  // A lawful stream that cycles through every space and samples the last indices.
  function CycleDraw(d: Draw, p: nat): (nat, nat) {
    match d
    case Bits(space) => (if space == 0 then 0 else p % space, p + 1)
    case OddBits(half) => (if half == 0 then 0 else 2 * (p % half) + 1, p + 1)
    case Range(lo, hi) => (if hi <= lo then 0 else lo + p % (hi - lo), p + 1)
  }

  function CycleChance(p: nat): (bool, nat) { (false, p) }

  function LastIndices(p: nat, n: nat, k: nat): (seq<nat>, nat) {
    (if k <= n then seq(k, i requires 0 <= i < k => n - k + i) else [], p)
  }

  const CYCLE: Stream := Stream(CycleDraw, CycleChance, LastIndices)

  lemma ModHit(p: nat, w: nat, m: nat) returns (j: nat)
    requires w < m
    ensures (p + j) % m == w
  {
    j := w + (m - p % m);
    var a := p / m;
    assert p + j == (a + 1) * m + w;
    ModOfMultiple(a + 1, m, w);
  }

  lemma {:induction false} MulAtLeast(k: nat, m: nat)
    requires k > 0
    ensures k * m >= m
  {
    if k > 1 {
      MulAtLeast(k - 1, m);
      assert k * m == (k - 1) * m + m;
    }
  }

  lemma SmallMultiple(k: int, m: int, d: int)
    requires m >= 0 && k * m == d && -m < d < m
    ensures k == 0
  {
    if k > 0 { MulAtLeast(k, m); }
    if k < 0 {
      assert (-k) * m == -d;
      MulAtLeast(-k, m);
    }
  }

  lemma ModOfMultiple(a: nat, m: nat, w: nat)
    requires w < m
    ensures (a * m + w) % m == w
  {
    var x := a * m + w;
    var q, r := x / m, x % m;
    assert x == m * q + r;
    assert (a - q) * m == a * m - q * m;
    SmallMultiple(a - q, m, r - w);
  }

  lemma {:induction false} CycleNth(d: Draw, p: nat, j: nat)
    ensures Nth(CYCLE, d, p, j) == CycleDraw(d, p + j).0
    decreases j
  {
    if j > 0 { CycleNth(d, p + 1, j - 1); }
  }

  lemma CycleRecurs(d: Draw, p: nat, v: nat)
    requires InSpace(d, v)
    ensures Recurs(CYCLE, d, p, v)
  {
    var j;
    match d {
      case Bits(space) => j := ModHit(p, v, space);
      case OddBits(half) => j := ModHit(p, v / 2, half);
      case Range(lo, hi) => j := ModHit(p, v - lo, hi - lo);
    }
    CycleNth(d, p, j);
  }

  // The laws can be met.
  lemma CycleLawful()
    ensures Lawful(CYCLE)
  {
    forall d, p, v | InSpace(d, v) ensures Recurs(CYCLE, d, p, v) {
      CycleRecurs(d, p, v);
    }
  }

  lemma LastBlockSampled(p: nat, rows: nat, k: nat) returns (i: nat)
    requires 0 < k <= Blocks(rows)
    ensures i < |TierBlocks(CYCLE, p, rows, k).0| && TierBlocks(CYCLE, p, rows, k).0[i] == Blocks(rows) - 1
  {
    var s: seq<nat> := LastIndices(p, Blocks(rows), k).0;
    assert s[k - 1] == Blocks(rows) - 1;
    var t: seq<nat> := Sort(s, Leq);
    assert s[k - 1] in multiset(s) && s[k - 1] in t;
    i :| 0 <= i < |t| && t[i] == Blocks(rows) - 1;
  }

  // With one or two rows in the last block, a stream that samples it in every tier
  // leaves the loop redrawing for ever.
  lemma HangsOnCycle(rows: nat)
    requires rows >= BLOCK_ROWS && LastBlockRows(rows) < 3
    ensures !PlanEnds(CYCLE, 0, rows)
  {
    hide Lawful, TierBlocks, BlockCounts, Elements, TierEnds, Tier, RoomIn;
    CycleLawful();
    if PlanEnds(CYCLE, 0, rows) {
      var c, last := BlockCounts(rows), Blocks(rows) - 1;
      TiersOrdered(rows);
      BlocksCounted(rows);
      var (b1, p1) := TierBlocks(CYCLE, 0, rows, c.rare);
      TierBlocksValid(CYCLE, 0, rows, c.rare);
      TierFacts(CYCLE, p1, b1, rows, {});
      var (r1, q1) := Tier(CYCLE, p1, b1, rows, {});
      var i1 := LastBlockSampled(0, rows, c.rare);
      var (b2, p2) := TierBlocks(CYCLE, q1, rows, c.sparse);
      TierBlocksValid(CYCLE, q1, rows, c.sparse);
      TierFacts(CYCLE, p2, b2, rows, Elements(r1));
      var (r2, q2) := Tier(CYCLE, p2, b2, rows, Elements(r1));
      var i2 := LastBlockSampled(q1, rows, c.sparse);
      var (b3, p3) := TierBlocks(CYCLE, q2, rows, c.common);
      TierBlocksValid(CYCLE, q2, rows, c.common);
      var i3 := LastBlockSampled(q2, rows, c.common);
      FullAfterTwo(rows, r1, b1, i1, r2, b2, i2);
      TierStuck(CYCLE, p3, b3, rows, Elements(r1) + Elements(r2), i3);
    }
  }

  lemma BlocksCounted(rows: nat)
    requires rows >= BLOCK_ROWS
    ensures var c := BlockCounts(rows); c.rare > 0 && c.sparse > 0 && c.common > 0
  {
  }

  lemma FullAfterTwo(rows: nat, r1: seq<nat>, b1: seq<nat>, i1: nat, r2: seq<nat>, b2: seq<nat>, i2: nat)
    requires rows >= BLOCK_ROWS && LastBlockRows(rows) < 3
    requires OnePerBlock(r1, b1, rows, {}) && i1 < |b1| && b1[i1] == Blocks(rows) - 1
    requires OnePerBlock(r2, b2, rows, Elements(r1)) && i2 < |b2| && b2[i2] == Blocks(rows) - 1
    ensures !RoomIn(Blocks(rows) - 1, rows, Elements(r1) + Elements(r2))
  {
    var last := Blocks(rows) - 1;
    assert r1[i1] in Elements(r1) && r2[i2] in Elements(r2) && r1[i1] != r2[i2];
    BlockRangeFacts(last, rows);
    assert InSpace(BlockRange(last, rows), r1[i1]) && InSpace(BlockRange(last, rows), r2[i2]);
  }

  // plan_needles returns on every lawful stream exactly when the corpus is below one
  // block or its last block holds at least three rows.
  lemma PlanEndsIff(rows: nat)
    ensures (forall st: Stream, p: nat :: Lawful(st) ==> PlanEnds(st, p, rows))
            <==> (rows < BLOCK_ROWS || LastBlockRows(rows) >= 3)
  {
    if rows >= BLOCK_ROWS {
      if LastBlockRows(rows) >= 3 {
        forall st: Stream, p: nat | Lawful(st) ensures PlanEnds(st, p, rows) { EndsWithThreeRows(st, p, rows); }
      } else {
        CycleLawful();
        HangsOnCycle(rows);
      }
    }
  }

  // 8,193 log rows: both later tiers take every block and the last block has one row, so
  // no stream at all lets the planner return.
  lemma HangsAt8193(st: Stream, p: nat)
    requires Lawful(st)
    ensures !PlanEnds(st, p, 8193)
  {
    hide Lawful, TierBlocks, Elements, TierEnds, Tier, RoomIn;
    if PlanEnds(st, p, 8193) {
      assert BlockCounts(8193) == Counts(1, 2, 2);
      var (b1, p1) := TierBlocks(st, p, 8193, 1);
      var (r1, q1) := Tier(st, p1, b1, 8193, {});
      var (b2, p2) := TierBlocks(st, q1, 8193, 2);
      TierBlocksValid(st, q1, 8193, 2);
      TierFacts(st, p2, b2, 8193, Elements(r1));
      var (r2, q2) := Tier(st, p2, b2, 8193, Elements(r1));
      var (b3, p3) := TierBlocks(st, q2, 8193, 2);
      TierBlocksValid(st, q2, 8193, 2);
      var i2 := BothBlocks(b2);
      var i3 := BothBlocks(b3);
      OnlyRowTaken(r1, r2, b2, i2);
      TierStuck(st, p3, b3, 8193, Elements(r1) + Elements(r2), i3);
    }
  }

  lemma BothBlocks(blocks: seq<nat>) returns (i: nat)
    requires |blocks| == 2 && ValidBlocks(blocks, 8193)
    ensures i < 2 && blocks[i] == 1
  {
    i := if blocks[0] == 1 then 0 else 1;
  }

  lemma OnlyRowTaken(r1: seq<nat>, r2: seq<nat>, blocks: seq<nat>, i: nat)
    requires OnePerBlock(r2, blocks, 8193, Elements(r1)) && i < |blocks| && blocks[i] == 1
    ensures !RoomIn(1, 8193, Elements(r1) + Elements(r2))
  {
    assert r2[i] in Elements(r2);
  }

  // --- when it can end at all ------------------------------------------------

  // The cycling stream that samples the first indices.
  function FirstIndices(p: nat, n: nat, k: nat): (seq<nat>, nat) {
    (if k <= n then seq(k, i requires 0 <= i < k => i) else [], p)
  }

  const EARLY: Stream := Stream(CycleDraw, CycleChance, FirstIndices)

  lemma {:induction false} EarlyNth(d: Draw, p: nat, j: nat)
    ensures Nth(EARLY, d, p, j) == Nth(CYCLE, d, p, j)
    decreases j
  {
    if j > 0 { EarlyNth(d, p + 1, j - 1); }
  }

  lemma EarlyLawful()
    ensures Lawful(EARLY)
  {
    CycleLawful();
    forall d, p, v | InSpace(d, v) ensures Recurs(EARLY, d, p, v) {
      assert Recurs(CYCLE, d, p, v);
      var j: nat :| Nth(CYCLE, d, p, j) == v;
      EarlyNth(d, p, j);
    }
    forall d, p | Inhabited(d) ensures InSpace(d, EARLY.pull(d, p).0) {
      assert InSpace(d, CYCLE.pull(d, p).0);
    }
  }

  lemma EarlyBlocks(p: nat, rows: nat, k: nat)
    requires k <= Blocks(rows)
    ensures forall b :: b in TierBlocks(EARLY, p, rows, k).0 ==> b < k
  {
    var s: seq<nat> := FirstIndices(p, Blocks(rows), k).0;
    var t: seq<nat> := Sort(s, Leq);
    forall b | b in t ensures b < k { assert b in multiset(t) && b in s; }
  }

  // Two tiers leave a row in a block that has more rows than they took there.
  lemma RoomBeside(b: nat, rows: nat, ra: seq<nat>, ba: seq<nat>, rb: seq<nat>, bb: seq<nat>, used: set<nat>)
    requires b < Blocks(rows)
    requires OnePerBlock(ra, ba, rows, {}) && Distinct(ba) && OnePerBlock(rb, bb, rows, used) && Distinct(bb)
    requires rows - b * BLOCK_ROWS > (if b in ba then 1 else 0) + if b in bb then 1 else 0
    ensures RoomIn(b, rows, Elements(ra) + Elements(rb))
  {
    hide OnePerBlock, Distinct;
    var x := b * BLOCK_ROWS;
    BlockRangeFacts(b, rows);
    OneOf(ra, ba, rows, {}, b, x);
    OneOf(rb, bb, rows, used, b, x);
    assert InSpace(BlockRange(b, rows), x);
    assert rows > x + 1 ==> InSpace(BlockRange(b, rows), x + 1);
    assert rows > x + 2 ==> InSpace(BlockRange(b, rows), x + 2);
  }

  // A tier takes at most one of the first three rows of a block, and none of a block it
  // does not sample.
  lemma OneOf(rs: seq<nat>, blocks: seq<nat>, rows: nat, used: set<nat>, b: nat, x: nat)
    requires OnePerBlock(rs, blocks, rows, used) && Distinct(blocks) && x == b * BLOCK_ROWS
    ensures b !in blocks ==> x !in rs && x + 1 !in rs && x + 2 !in rs
    ensures !(x in rs && x + 1 in rs) && !(x in rs && x + 2 in rs) && !(x + 1 in rs && x + 2 in rs)
  {
    forall y | y in {x, x + 1, x + 2} && y in rs ensures b in blocks {
      var i :| 0 <= i < |rs| && rs[i] == y;
      assert blocks[i] == b;
    }
    NotBoth(rs, blocks, rows, used, x, x + 1);
    NotBoth(rs, blocks, rows, used, x, x + 2);
    NotBoth(rs, blocks, rows, used, x + 1, x + 2);
  }

  lemma NotBoth(rs: seq<nat>, blocks: seq<nat>, rows: nat, used: set<nat>, x: nat, y: nat)
    requires OnePerBlock(rs, blocks, rows, used) && Distinct(blocks) && x / BLOCK_ROWS == y / BLOCK_ROWS && x != y
    ensures !(x in rs && y in rs)
  {
    hide OnePerBlock, Distinct;
    if x in rs && y in rs { SameBlockSameRow(rs, blocks, rows, used, x, y); }
  }

  lemma EndsEarly(p: nat, rows: nat)
    requires rows >= BLOCK_ROWS && rows != 8193
    ensures PlanEnds(EARLY, p, rows)
  {
    hide Lawful, TierBlocks, BlockCounts, Blocks, Elements, TierEnds, Tier, OnePerBlock, Distinct, RoomIn,
         LastBlockRows;
    EarlyLawful();
    if LastBlockRows(rows) >= 3 {
      EndsWithThreeRows(EARLY, p, rows);
    } else {
      var c, n := BlockCounts(rows), Blocks(rows);
      TiersOrdered(rows);
      ShortLast(rows);
      var (b1, p1) := TierBlocks(EARLY, p, rows, c.rare);
      TierBlocksValid(EARLY, p, rows, c.rare);
      EarlyBlocks(p, rows, c.rare);
      NoneOnePerBlock(rows);
      forall i | 0 <= i < |b1| ensures RoomIn(b1[i], rows, {}) {
        BlockSize(rows, b1[i]);
        RoomBeside(b1[i], rows, [], [], [], [], {});
        assert Elements([]) + Elements([]) == {};
      }
      TierEndsWithRoom(EARLY, p1, b1, rows, {});
      TierFacts(EARLY, p1, b1, rows, {});
      var (r1, q1) := Tier(EARLY, p1, b1, rows, {});
      var (b2, p2) := TierBlocks(EARLY, q1, rows, c.sparse);
      TierBlocksValid(EARLY, q1, rows, c.sparse);
      EarlyBlocks(q1, rows, c.sparse);
      forall i | 0 <= i < |b2| ensures RoomIn(b2[i], rows, Elements(r1)) {
        BlockSize(rows, b2[i]);
        RoomBeside(b2[i], rows, r1, b1, [], [], {});
        assert Elements(r1) + Elements([]) == Elements(r1);
      }
      TierEndsWithRoom(EARLY, p2, b2, rows, Elements(r1));
      TierFacts(EARLY, p2, b2, rows, Elements(r1));
      var (r2, q2) := Tier(EARLY, p2, b2, rows, Elements(r1));
      var (b3, p3) := TierBlocks(EARLY, q2, rows, c.common);
      TierBlocksValid(EARLY, q2, rows, c.common);
      forall i | 0 <= i < |b3| ensures RoomIn(b3[i], rows, Elements(r1) + Elements(r2)) {
        BlockSize(rows, b3[i]);
        RoomBeside(b3[i], rows, r1, b1, r2, b2, Elements(r1));
      }
      TierEndsWithRoom(EARLY, p3, b3, rows, Elements(r1) + Elements(r2));
    }
  }

  // A short last block stands behind another one; with two blocks it has two rows, or the
  // corpus has 8,193.
  lemma ShortLast(rows: nat)
    requires rows >= BLOCK_ROWS && LastBlockRows(rows) < 3
    ensures var n := Blocks(rows); n >= 2 && BlockCounts(rows).rare == 1 && (n == 2 && rows != 8193 ==> rows == 8194)
  {
  }

  lemma BlockSize(rows: nat, b: nat)
    requires b < Blocks(rows)
    ensures rows - b * BLOCK_ROWS > if b == Blocks(rows) - 1 then 0 else 2
    ensures rows == 8194 && b == 1 ==> rows - b * BLOCK_ROWS == 2
  {
  }

  // The planner returns on some lawful stream if and only if there are not 8,193 rows.
  lemma PlanCanEndIff(rows: nat)
    ensures (exists st: Stream, p: nat :: Lawful(st) && PlanEnds(st, p, rows)) <==> rows != 8193
  {
    if rows == 8193 {
      forall st: Stream, p: nat | Lawful(st) ensures !PlanEnds(st, p, rows) { HangsAt8193(st, p); }
    } else {
      EarlyLawful();
      if rows >= BLOCK_ROWS { EndsEarly(0, rows); }
      assert PlanEnds(EARLY, 0, rows);
    }
  }

  // --- the method ------------------------------------------------------------

  lemma {:induction false} TierEndsPrefix(st: Stream, p: nat, blocks: seq<nat>, rows: nat, used: set<nat>, i: nat)
    requires TierEnds(st, p, blocks, rows, used) && i <= |blocks|
    ensures TierEnds(st, p, blocks[..i], rows, used)
  {
    if i < |blocks| {
      var n := |blocks| - 1;
      TierEndsPrefix(st, p, blocks[..n], rows, used, i);
      assert blocks[..n][..i] == blocks[..i];
    } else {
      assert blocks[..i] == blocks;
    }
  }

  lemma ElementsAppend(s: seq<nat>, r: nat)
    ensures Elements(s + [r]) == Elements(s) + {r}
  {
  }

  lemma TierStep(st: Stream, p: nat, blocks: seq<nat>, rows: nat, used: set<nat>, i: nat)
    requires TierEnds(st, p, blocks, rows, used) && i < |blocks|
    ensures TierEnds(st, p, blocks[..i], rows, used) && TierEnds(st, p, blocks[..i + 1], rows, used)
    ensures var (rs, q) := Tier(st, p, blocks[..i], rows, used);
            && Reaches(st, BlockRange(blocks[i], rows), q, used + Elements(rs))
            && var (r, q') := Outside(st, BlockRange(blocks[i], rows), q, used + Elements(rs));
               Tier(st, p, blocks[..i + 1], rows, used) == (rs + [r], q')
  {
    TierEndsPrefix(st, p, blocks, rows, used, i);
    TierEndsPrefix(st, p, blocks, rows, used, i + 1);
    assert blocks[..i + 1][..i] == blocks[..i];
  }

  method PlaceTier(rng: Random, rows: nat, k: nat, used: set<nat>) returns (out: seq<nat>, used': set<nat>)
    requires var (b, q) := TierBlocks(rng.stream, rng.pos, rows, k); TierEnds(rng.stream, q, b, rows, used)
    modifies rng
    ensures var (b, q) := TierBlocks(rng.stream, old(rng.pos), rows, k);
            (out, rng.pos) == Tier(rng.stream, q, b, rows, used)
    ensures used' == used + Elements(out)
  {
    hide BlockRange, Reaches, Outside, Elements, Sort;
    ghost var st := rng.stream;
    var sample := rng.Sample(Blocks(rows), k);
    var blocks := Sort(sample, Leq);
    ghost var q := rng.pos;
    out, used' := [], used;
    NoneOnePerBlock(rows);
    for i := 0 to |blocks|
      invariant TierEnds(st, q, blocks[..i], rows, used)
      invariant (out, rng.pos) == Tier(st, q, blocks[..i], rows, used)
      invariant used' == used + Elements(out)
    {
      TierStep(st, q, blocks, rows, used, i);
      var r := rng.DrawOutside(BlockRange(blocks[i], rows), used');
      ElementsAppend(out, r);
      out, used' := out + [r], used' + {r};
    }
    assert blocks[..|blocks|] == blocks;
  }

  method PlanNeedles(rng: Random, rows: nat) returns (plan: Plan)
    requires PlanEnds(rng.stream, rng.pos, rows)
    modifies rng
    ensures (plan, rng.pos) == NeedlePlan(rng.stream, old(rng.pos), rows)
  {
    if rows < BLOCK_ROWS {
      return Plan([], [], []);
    }
    var counts := BlockCounts(rows);
    var rare, sparse, common, used;
    rare, used := PlaceTier(rng, rows, counts.rare, {});
    assert {} + Elements(rare) == Elements(rare);
    sparse, used := PlaceTier(rng, rows, counts.sparse, used);
    common, used := PlaceTier(rng, rows, counts.common, used);
    plan := Plan(rare, sparse, common);
  }
}
