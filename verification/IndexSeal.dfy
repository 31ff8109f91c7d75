/**
 Sealing an agent's list for publication: loaded pages are cut again from their entries,
 full pages are sealed off the open page, everything else stays. The root published holds
 exactly what the list held.
 */
module IndexSeal {
  import opened IndexPages
  import opened Numbers
  import opened Sorting
  import opened Wrappers

  // --- sealing ---------------------------------------------------------------

  function MetaOf(chunk: seq<Entry>, firstKey: nat): Meta { Meta(firstKey, chunk, |chunk|, AcceptRange(chunk)) }

  // A loaded page's entries again, at most k to a page.
  function Chunks(entries: seq<Entry>, firstKey: nat, k: nat): seq<Meta>
    requires k > 0
    decreases |entries|
  {
    if entries == [] then []
    else
      var n := if |entries| < k then |entries| else k;
      [MetaOf(entries[..n], firstKey)] + Chunks(entries[n..], entries[n - 1].key + 1, k)
  }

  // Full pages off the front of the open page, as long as the next key may not be
  // appended below any more; the rest stays open from the tail key on.
  function SealTail(open: seq<Entry>, tail: nat, k: nat, below: nat): (seq<Meta>, seq<Entry>, nat)
    requires k > 0
    decreases |open|
  {
    if |open| > k && open[k].key <= below then
      var (pages, rest, end) := SealTail(open[k..], open[k].key, k, below);
      ([MetaOf(open[..k], open[0].key)] + pages, rest, end)
    else ([], open, tail)
  }

  // Strictly sorted entries with keys from lo up to hi.
  ghost predicate Ranged(s: seq<Entry>, lo: nat, hi: nat) {
    StrictlySorted(s) && forall e :: e in s ==> lo <= e.key < hi
  }

  lemma RangedSplit(s: seq<Entry>, n: nat, lo: nat, hi: nat)
    requires Ranged(s, lo, hi) && 0 < n <= |s|
    ensures lo < s[n - 1].key + 1 <= hi
    ensures Ranged(s[..n], lo, s[n - 1].key + 1) && Ranged(s[n..], s[n - 1].key + 1, hi)
    ensures multiset(s) == multiset(s[..n]) + multiset(s[n..])
  {
    assert s[n - 1] in s;
    assert s == s[..n] + s[n..];
  }

  lemma MetaDescribed(chunk: seq<Entry>, firstKey: nat, hi: nat)
    requires chunk != [] && Ranged(chunk, firstKey, hi)
    ensures Described(MetaOf(chunk, firstKey), hi)
  {
    hide AcceptRange;
  }

  ghost predicate AtMost(pages: seq<Meta>, k: nat) { forall j :: 0 <= j < |pages| ==> |pages[j].page| <= k }

  // The chunks of a page fill its range and hold its entries.
  lemma {:induction false} ChunksFacts(entries: seq<Entry>, firstKey: nat, k: nat, hi: nat)
    requires k > 0 && firstKey <= hi && Ranged(entries, firstKey, hi)
    ensures var pages := Chunks(entries, firstKey, k);
            Chain(pages, firstKey, hi) && Contents(pages) == multiset(entries) && AtMost(pages, k)
    decreases |entries|
  {
    hide Described, AcceptRange, Contents, Ranged, Chain, Chunks, MetaOf;
    ChunksStep(entries, firstKey, k);
    if entries == [] {
      ChainEmpty(firstKey, hi);
      ContentsNone();
    } else {
      var n := if |entries| < k then |entries| else k;
      var chunk, rest := entries[..n], entries[n..];
      var next := entries[n - 1].key + 1;
      RangedSplit(entries, n, firstKey, hi);
      ChunksFacts(rest, next, k, hi);
      PagePlus(chunk, firstKey, Chunks(rest, next, k), firstKey, next, hi);
    }
  }

  lemma ChunksStep(entries: seq<Entry>, firstKey: nat, k: nat)
    requires k > 0
    ensures Chunks(entries, firstKey, k) ==
            if entries == [] then []
            else
              var n := if |entries| < k then |entries| else k;
              [MetaOf(entries[..n], firstKey)] + Chunks(entries[n..], entries[n - 1].key + 1, k)
  {
    hide MetaOf;
  }

  // A page before a chain of pages.
  lemma PagePlus(chunk: seq<Entry>, firstKey: nat, others: seq<Meta>, lo: nat, next: nat, hi: nat)
    requires chunk != [] && lo <= firstKey && Ranged(chunk, firstKey, next) && Chain(others, next, hi)
    ensures var pages := [MetaOf(chunk, firstKey)] + others;
            && Chain(pages, lo, hi) && Contents(pages) == multiset(chunk) + Contents(others)
            && forall k :: |chunk| <= k && AtMost(others, k) ==> AtMost(pages, k)
  {
    hide Described, AcceptRange, Contents, Chain;
    var first := MetaOf(chunk, firstKey);
    assert chunk[0] in chunk;
    MetaDescribed(chunk, firstKey, next);
    OnePage(first, lo, next);
    ChainConcat([first], others, lo, next, hi);
    ContentsConcat([first], others);
  }

  lemma OnePage(m: Meta, lo: nat, hi: nat)
    requires lo <= m.firstKey < hi && Described(m, hi)
    ensures Chain([m], lo, hi) && Contents([m]) == multiset(m.page)
  {
    hide Described;
    assert Linked([m], 0, lo, hi);
    assert [m][..0] == [];
    ContentsNone();
  }

  // Strictly sorted entries with keys from lo on.
  ghost predicate From(s: seq<Entry>, lo: nat) { StrictlySorted(s) && forall e :: e in s ==> lo <= e.key }

  lemma FromSplit(s: seq<Entry>, k: nat, lo: nat)
    requires From(s, lo) && 0 < k < |s|
    ensures lo <= s[0].key && Ranged(s[..k], s[0].key, s[k].key) && From(s[k..], s[k].key)
    ensures multiset(s) == multiset(s[..k]) + multiset(s[k..])
  {
    assert s[0] in s;
    assert s == s[..k] + s[k..];
  }

  lemma {:induction false} SealTailFacts(open: seq<Entry>, tail: nat, k: nat, below: nat)
    requires k > 0 && From(open, tail)
    ensures var (pages, rest, end) := SealTail(open, tail, k, below);
            && Chain(pages, tail, end) && Contents(pages) + multiset(rest) == multiset(open) && AtMost(pages, k)
            && From(rest, end) && (end == tail || end <= below) && (pages == [] ==> end == tail)
            && (open != [] ==> rest != [])
    decreases |open|
  {
    hide Described, AcceptRange, Contents, Chain, From, Ranged;
    if |open| > k && open[k].key <= below {
      var next := open[k].key;
      FromSplit(open, k, tail);
      SealTailFacts(open[k..], next, k, below);
      var (pages, left, end) := SealTail(open[k..], next, k, below);
      PagePlus(open[..k], open[0].key, pages, tail, next, end);
    } else {
      ChainEmpty(tail, tail);
      ContentsNone();
    }
  }

  function Trues(n: nat): (r: seq<bool>)
    ensures |r| == n && forall i :: 0 <= i < n ==> r[i]
  {
    seq(n, _ => true)
  }

  // The pages that differ from one page: what a publish must write.
  function Changed(pages: seq<Meta>, m: Meta): (r: seq<seq<Entry>>)
    ensures forall j :: 0 <= j < |pages| ==> pages[j].page == m.page || pages[j].page in r
  {
    if pages == [] then []
    else
      var n := |pages| - 1;
      Changed(pages[..n], m) + if pages[n] != m then [pages[n].page] else []
  }

  function Objects(pages: seq<Meta>): (r: seq<seq<Entry>>)
    ensures |r| == |pages| && forall j :: 0 <= j < |r| ==> r[j] == pages[j].page
  {
    seq(|pages|, j requires 0 <= j < |pages| => pages[j].page)
  }

  datatype Rebuilt = Rebuilt(pages: seq<Meta>, loaded: seq<bool>, objects: seq<seq<Entry>>)

  // The first n pages again: a page not in memory as it is, a loaded one from its entries.
  function Rebuild(d: Directory, list: seq<Entry>, n: nat, k: nat): (r: Rebuilt)
    requires n <= |d.pages| && k > 0
    ensures |r.pages| == |r.loaded|
  {
    if n == 0 then Rebuilt([], [], [])
    else
      var b, m := Rebuild(d, list, n - 1, k), d.pages[n - 1];
      if !IsLoaded(d, n - 1) then Rebuilt(b.pages + [m], b.loaded + [false], b.objects)
      else
        var c := Chunks(Sort(Part(d, list, Some(n - 1)), ByKey), m.firstKey, k);
        Rebuilt(b.pages + c, b.loaded + Trues(|c|), b.objects + Changed(c, m))
  }

  lemma RebuildStep(d: Directory, list: seq<Entry>, n: nat, k: nat)
    requires 0 < n <= |d.pages| && k > 0
    ensures var b, m := Rebuild(d, list, n - 1, k), d.pages[n - 1];
            var c := Chunks(Sort(Part(d, list, Some(n - 1)), ByKey), m.firstKey, k);
            Rebuild(d, list, n, k) ==
            if !IsLoaded(d, n - 1) then Rebuilt(b.pages + [m], b.loaded + [false], b.objects)
            else Rebuilt(b.pages + c, b.loaded + Trues(|c|), b.objects + Changed(c, m))
  {
    hide Chunks, Sort, Part, Changed, IsLoaded;
  }

  // The entries of a page are in its range.
  lemma PartRanged(d: Directory, list: seq<Entry>, i: nat)
    requires Valid(d, list) && i < |d.pages|
    ensures Ranged(Sort(Part(d, list, Some(i)), ByKey), d.pages[i].firstKey, Next(d.pages, i, d.tailFrom))
  {
    hide Part, Sort, Chain, DistinctKeys, StrictlySorted;
    var part := Part(d, list, Some(i));
    PartDistinct(d, list, Some(i));
    SortStrict(part);
    forall e | e in part ensures d.pages[i].firstKey <= e.key < Next(d.pages, i, d.tailFrom) {
      assert Placed(d, e) && PageFor(d, e.key) == Some(i);
    }
  }

  // An unloaded page has no entries in memory.
  lemma PartUnloaded(d: Directory, list: seq<Entry>, i: nat)
    requires Valid(d, list) && i < |d.pages| && !IsLoaded(d, i)
    ensures Part(d, list, Some(i)) == []
  {
    hide Part, Chain, DistinctKeys, PageFor;
    assert forall e :: e in list ==> Placed(d, e);
    PartEmpty(d, list, Some(i));
  }

  lemma {:induction false} PartEmpty(d: Directory, list: seq<Entry>, place: Option<nat>)
    requires forall e :: e in list ==> PageFor(d, e.key) != place
    ensures Part(d, list, place) == []
  {
    hide PageFor;
    if list != [] { PartEmpty(d, list[..|list| - 1], place); }
  }

  function StartOf(d: Directory, n: nat): nat { if n < |d.pages| then d.pages[n].firstKey else d.tailFrom }

  // Either unchanged or at most k entries.
  ghost predicate Bounded(pages: seq<Meta>, was: seq<Meta>, k: nat) {
    forall j :: 0 <= j < |pages| ==> pages[j] in was || |pages[j].page| <= k
  }

  // Either an object that was there or one that is written.
  ghost predicate Backed(pages: seq<Meta>, was: seq<Meta>, objects: seq<seq<Entry>>) {
    forall j :: 0 <= j < |pages| ==>
      pages[j].page in objects || exists i :: 0 <= i < |was| && was[i].page == pages[j].page
  }

  ghost predicate RebuiltWell(d: Directory, list: seq<Entry>, n: nat, k: nat, r: Rebuilt)
    requires n <= |d.pages|
  {
    && |r.pages| == |r.loaded| && Chain(r.pages, 0, StartOf(d, n))
    && Held(r.pages, r.loaded, true) == Parts(d, list, n)
    && Held(r.pages, r.loaded, false) == Held(d.pages[..n], Flags(d, n), false)
    && Bounded(r.pages, d.pages, k) && Backed(r.pages, d.pages, r.objects)
  }

  lemma {:induction false} HeldTrues(pages: seq<Meta>)
    ensures Held(pages, Trues(|pages|), true) == Contents(pages)
    ensures Held(pages, Trues(|pages|), false) == multiset{}
  {
    hide Held, Contents;
    ContentsStep(pages);
    HeldStep(pages, Trues(|pages|), true);
    HeldStep(pages, Trues(|pages|), false);
    if pages != [] {
      HeldTrues(pages[..|pages| - 1]);
      assert Trues(|pages|)[..|pages| - 1] == Trues(|pages| - 1);
    }
  }

  // A page that is not in memory goes into the new directory as it is.
  lemma KeepsUnloaded(d: Directory, list: seq<Entry>, n: nat, k: nat, b: Rebuilt)
    requires Valid(d, list) && 0 < n <= |d.pages| && !IsLoaded(d, n - 1) && RebuiltWell(d, list, n - 1, k, b)
    ensures RebuiltWell(d, list, n, k, Rebuilt(b.pages + [d.pages[n - 1]], b.loaded + [false], b.objects))
  {
    hide Held, Part, Described, Contents, PageFor;
    var m := d.pages[n - 1];
    assert Linked(d.pages, n - 1, 0, d.tailFrom);
    OnePage(m, m.firstKey, StartOf(d, n));
    ChainConcat(b.pages, [m], 0, m.firstKey, StartOf(d, n));
    HeldConcat(b.pages, b.loaded, [m], [false], true);
    HeldConcat(b.pages, b.loaded, [m], [false], false);
    HeldOne(m, false, true);
    HeldOne(m, false, false);
    HeldPrefix(d, n, false);
    PartUnloaded(d, list, n - 1);
  }

  // A loaded page goes in as the chunks of its entries.
  lemma KeepsLoaded(d: Directory, list: seq<Entry>, n: nat, k: nat, b: Rebuilt)
    requires Valid(d, list) && 0 < n <= |d.pages| && IsLoaded(d, n - 1) && k > 0 && RebuiltWell(d, list, n - 1, k, b)
    ensures var m := d.pages[n - 1];
            var c := Chunks(Sort(Part(d, list, Some(n - 1)), ByKey), m.firstKey, k);
            RebuiltWell(d, list, n, k, Rebuilt(b.pages + c, b.loaded + Trues(|c|), b.objects + Changed(c, m)))
  {
    hide Held, Part, Described, Contents, PageFor, Chunks, Sort, Changed, Chain, Ranged;
    var m := d.pages[n - 1];
    var part := Part(d, list, Some(n - 1));
    var c := Chunks(Sort(part, ByKey), m.firstKey, k);
    PartRanged(d, list, n - 1);
    PageStarts(d, n - 1);
    ChunksFacts(Sort(part, ByKey), m.firstKey, k, StartOf(d, n));
    ChainConcat(b.pages, c, 0, m.firstKey, StartOf(d, n));
    HeldConcat(b.pages, b.loaded, c, Trues(|c|), true);
    HeldConcat(b.pages, b.loaded, c, Trues(|c|), false);
    HeldTrues(c);
    HeldPrefix(d, n, false);
    BackedMore(b.pages, d.pages, b.objects, c, n - 1);
  }

  lemma PageStarts(d: Directory, i: nat)
    requires Chain(d.pages, 0, d.tailFrom) && i < |d.pages|
    ensures d.pages[i].firstKey < StartOf(d, i + 1) == Next(d.pages, i, d.tailFrom)
  {
    assert Linked(d.pages, i, 0, d.tailFrom);
  }

  lemma BackedMore(pages: seq<Meta>, was: seq<Meta>, objects: seq<seq<Entry>>, c: seq<Meta>, i: nat)
    requires Backed(pages, was, objects) && i < |was|
    ensures Backed(pages + c, was, objects + Changed(c, was[i]))
  {
    hide Changed;
    var all, more := pages + c, objects + Changed(c, was[i]);
    forall j | 0 <= j < |all| ensures all[j].page in more || exists h :: 0 <= h < |was| && was[h].page == all[j].page {
      if j >= |pages| { assert all[j] == c[j - |pages|]; }
    }
  }

  lemma {:induction false} RebuildFacts(d: Directory, list: seq<Entry>, n: nat, k: nat)
    requires Valid(d, list) && n <= |d.pages| && k > 0
    ensures RebuiltWell(d, list, n, k, Rebuild(d, list, n, k))
  {
    hide RebuiltWell, Rebuild, Valid;
    if n == 0 {
      RebuildNone(d, list, k);
    } else {
      RebuildFacts(d, list, n - 1, k);
      RebuildStep(d, list, n, k);
      if IsLoaded(d, n - 1) {
        KeepsLoaded(d, list, n, k, Rebuild(d, list, n - 1, k));
      } else {
        KeepsUnloaded(d, list, n, k, Rebuild(d, list, n - 1, k));
      }
    }
  }

  lemma RebuildNone(d: Directory, list: seq<Entry>, k: nat)
    requires k > 0
    ensures RebuiltWell(d, list, 0, k, Rebuild(d, list, 0, k))
  {
    assert d.pages[..0] == [] && Flags(d, 0) == [];
  }

  // --- a whole seal ----------------------------------------------------------

  datatype PageError = NotLoaded(page: nat) | DirectoryFull(max: nat)

  // With the tail kept, a list whose open page ran empty takes its last page back, if
  // that is in memory.
  predicate Reopens(d: Directory, list: seq<Entry>, keepTail: bool) {
    keepTail && d.pages != [] && Part(d, list, None) == [] && IsLoaded(d, |d.pages| - 1)
  }

  // The directory without its last page.
  function Shortened(d: Directory): Directory
    requires d.pages != []
  {
    var last := |d.pages| - 1;
    Directory(d.pages[..last], if last == 0 then 0 else d.pages[last].firstKey,
              if last < |d.loaded| then d.loaded[..last] else d.loaded)
  }

  function Source(d: Directory, list: seq<Entry>, keepTail: bool): Directory {
    if Reopens(d, list, keepTail) then Shortened(d) else d
  }

  // The first unloaded page that has entries in memory all the same.
  function Stray(d: Directory, list: seq<Entry>, n: nat): Option<nat> {
    if n == 0 then None
    else if Stray(d, list, n - 1).Some? then Stray(d, list, n - 1)
    else if !IsLoaded(d, n - 1) && Part(d, list, Some(n - 1)) != [] then Some(n - 1)
    else None
  }

  // The first n pages rebuilt, and full pages sealed off the open entries.
  function Resealed(d: Directory, list: seq<Entry>, n: nat, tail: nat, open: seq<Entry>, k: nat, below: nat)
    : (Directory, seq<seq<Entry>>)
    requires k > 0 && n <= |d.pages|
  {
    var b := Rebuild(d, list, n, k);
    var (more, _, end) := SealTail(Sort(open, ByKey), tail, k, below);
    var pages := b.pages + more;
    (Directory(pages, if pages == [] then 0 else end, b.loaded + Trues(|more|)), b.objects + Objects(more))
  }

  function Seal(d: Directory, list: seq<Entry>, keepTail: bool, below: nat, maxEntries: nat, maxPages: nat)
    : Result<(Directory, seq<seq<Entry>>), PageError>
  {
    var s := Source(d, list, keepTail);
    var n := |s.pages|;
    var open := if Reopens(d, list, keepTail) then Part(d, list, Some(n)) else Part(d, list, None);
    var stray := Stray(d, list, n);
    if stray.Some? then Err(NotLoaded(stray.value))
    else
      var (out, objects) := Resealed(d, list, n, s.tailFrom, open, AtLeastOne(maxEntries), below);
      if |out.pages| > maxPages then Err(DirectoryFull(maxPages)) else Ok((out, objects))
  }

  // --- taking the last page back ---------------------------------------------

  lemma ChainPrefix(pages: seq<Meta>, lo: nat, hi: nat, n: nat)
    requires Chain(pages, lo, hi) && n < |pages|
    ensures Chain(pages[..n], lo, pages[n].firstKey)
  {
    hide Described;
    assert Linked(pages, n, lo, hi);
    forall j | 0 <= j < n ensures Linked(pages[..n], j, lo, pages[n].firstKey) {
      assert Linked(pages, j, lo, hi);
    }
  }

  lemma {:induction false} StartedByPrefix(pages: seq<Meta>, n: nat, key: nat)
    requires n <= |pages|
    ensures StartedBy(pages[..n], key) == if StartedBy(pages, key) < n then StartedBy(pages, key) else n
  {
    if n > 0 && pages[0].firstKey <= key {
      StartedByPrefix(pages[1..], n - 1, key);
      assert pages[..n][1..] == pages[1..][..n - 1];
    }
  }

  // Without its last page, a directory sends that page's entries to the open page and
  // all others where they were.
  lemma ReopenedPlaces(d: Directory, key: nat)
    requires Chain(d.pages, 0, d.tailFrom) && d.pages != []
    ensures var i := PageFor(d, key); PageFor(Shortened(d), key) == if i == Some(|d.pages| - 1) then None else i
  {
    hide Linked, Described, StartedBy;
    var last := |d.pages| - 1;
    StartedByPrefix(d.pages, last, key);
    assert Linked(d.pages, last, 0, d.tailFrom);
    LastStarts(d);
    if last > 0 { FirstStarts(d); }
  }

  lemma LastStarts(d: Directory)
    requires Chain(d.pages, 0, d.tailFrom) && d.pages != []
    ensures d.pages[|d.pages| - 1].firstKey < d.tailFrom
  {
    hide Described;
    assert Linked(d.pages, |d.pages| - 1, 0, d.tailFrom);
  }

  lemma FirstStarts(d: Directory)
    requires Chain(d.pages, 0, d.tailFrom) && |d.pages| > 1
    ensures forall j :: 0 <= j < |d.pages| - 1 ==> d.pages[j].firstKey < d.pages[|d.pages| - 1].firstKey
  {
    hide Chain;
    forall j | 0 <= j < |d.pages| - 1 ensures d.pages[j].firstKey < d.pages[|d.pages| - 1].firstKey {
      ChainAscends(d.pages, 0, d.tailFrom, j, |d.pages| - 1);
    }
  }

  lemma SourceKeeps(d: Directory, list: seq<Entry>, keepTail: bool)
    requires Valid(d, list)
    ensures Valid(Source(d, list, keepTail), list) && Whole(Source(d, list, keepTail), list) == Whole(d, list)
    ensures Source(d, list, keepTail).tailFrom <= d.tailFrom
  {
    hide Part, Held, PageFor, Chain, DistinctKeys;
    var s, last := Source(d, list, keepTail), |d.pages| - 1;
    if Reopens(d, list, keepTail) {
      ReopenedChain(d);
      LastStarts(d);
      forall e | e in list ensures Placed(s, e) {
        assert Placed(d, e);
        ReopenedPlaces(d, e.key);
      }
      assert Flags(s, last) == Flags(d, last) && d.pages[..|d.pages|] == d.pages;
      HeldPrefix(d, |d.pages|, false);
    }
  }

  lemma ReopenedChain(d: Directory)
    requires Chain(d.pages, 0, d.tailFrom) && d.pages != []
    ensures var last := |d.pages| - 1; Chain(d.pages[..last], 0, if last == 0 then 0 else d.pages[last].firstKey)
  {
    var last := |d.pages| - 1;
    if last > 0 { ChainPrefix(d.pages, 0, d.tailFrom, last); }
  }

  // --- what a seal keeps -----------------------------------------------------

  lemma OpenFrom(d: Directory, list: seq<Entry>)
    requires Valid(d, list)
    ensures From(Sort(Part(d, list, None), ByKey), d.tailFrom)
  {
    hide Part, Sort, Chain, DistinctKeys, StrictlySorted;
    PartDistinct(d, list, None);
    SortStrict(Part(d, list, None));
  }

  // A directory whose loaded pages and open rest make up a list is a valid one for it,
  // with exactly the rest kept inline.
  lemma Fits(d: Directory, list: seq<Entry>, rest: seq<Entry>)
    requires Chain(d.pages, 0, d.tailFrom) && (d.pages == [] ==> d.tailFrom == 0) && DistinctKeys(list)
    requires |d.loaded| == |d.pages| && multiset(list) == Held(d.pages, d.loaded, true) + multiset(rest)
    requires From(rest, d.tailFrom)
    ensures Valid(d, list) && multiset(Part(d, list, None)) == multiset(rest)
  {
    hide Held, Chain, PageFor, Part, DistinctKeys, From;
    forall e | e in list ensures Placed(d, e) && (PageFor(d, e.key).None? <==> e in rest) { FitsOne(d, list, rest, e); }
    forall e | e in rest ensures e in list {
      assert e in multiset(rest);
      assert e in multiset(list);
    }
    PartDistinct(d, list, None);
    RestDistinct(rest, d.tailFrom);
    SameOnce(Part(d, list, None), rest);
  }

  lemma FitsOne(d: Directory, list: seq<Entry>, rest: seq<Entry>, e: Entry)
    requires Chain(d.pages, 0, d.tailFrom) && DistinctKeys(list) && e in list
    requires |d.loaded| == |d.pages| && multiset(list) == Held(d.pages, d.loaded, true) + multiset(rest)
    requires From(rest, d.tailFrom)
    ensures Placed(d, e) && (PageFor(d, e.key).None? <==> e in rest)
  {
    hide Held, Chain;
    assert e in multiset(list);
    if e in rest {
      assert PageFor(d, e.key).None?;
    } else {
      HeldMember(d.pages, d.loaded, true, e);
      var j :| 0 <= j < |d.pages| && d.loaded[j] && e in d.pages[j].page;
      InPage(d, j, e);
    }
  }

  lemma RestDistinct(rest: seq<Entry>, lo: nat)
    requires From(rest, lo)
    ensures DistinctKeys(rest)
  {
  }

  lemma SameOnce(s: seq<Entry>, t: seq<Entry>)
    requires DistinctKeys(s) && DistinctKeys(t) && forall e :: e in s <==> e in t
    ensures multiset(s) == multiset(t)
  {
    forall e ensures multiset(s)[e] == multiset(t)[e] {
      OnceIn(s, e);
      OnceIn(t, e);
      assert e in multiset(s) <==> e in s;
      assert e in multiset(t) <==> e in t;
    }
  }

  lemma ResealKeeps(d: Directory, list: seq<Entry>, k: nat, below: nat)
    requires Valid(d, list) && k > 0
    ensures var (out, objects) := Resealed(d, list, |d.pages|, d.tailFrom, Part(d, list, None), k, below);
            && Valid(out, list) && Stored(out, list) == Whole(d, list) == Whole(out, list)
            && Bounded(out.pages, d.pages, k) && Backed(out.pages, d.pages, objects)
            && (out.tailFrom <= d.tailFrom || out.tailFrom <= below)
            && |Part(out, list, None)| == |SealTail(Sort(Part(d, list, None), ByKey), d.tailFrom, k, below).1|
  {
    hide Rebuild, SealTail, Sort, Part, Held, Chain, DistinctKeys, Contents, Placed, From, Trues, Objects, Bounded,
         Backed, Parts;
    var b := Rebuild(d, list, |d.pages|, k);
    var open := Sort(Part(d, list, None), ByKey);
    var (more, rest, end) := SealTail(open, d.tailFrom, k, below);
    var out := Resealed(d, list, |d.pages|, d.tailFrom, Part(d, list, None), k, below).0;
    RebuildFacts(d, list, |d.pages|, k);
    OpenFrom(d, list);
    SealTailFacts(open, d.tailFrom, k, below);
    ChainConcat(b.pages, more, 0, d.tailFrom, end);
    assert d.pages[..|d.pages|] == d.pages;
    HeldConcat(b.pages, b.loaded, more, Trues(|more|), true);
    HeldConcat(b.pages, b.loaded, more, Trues(|more|), false);
    HeldTrues(more);
    HeldBoth(out.pages, out.loaded);
    PartsCover(d, list);
    TailZero(out.pages, end, rest);
    Fits(out, list, rest);
    assert |Part(out, list, None)| == |multiset(Part(out, list, None))| == |multiset(rest)| == |rest|;
    assert Flags(out, |out.pages|) == out.loaded;
    MorePages(b.pages, d.pages, b.objects, more, k);
  }

  lemma TailZero(pages: seq<Meta>, end: nat, rest: seq<Entry>)
    requires Chain(pages, 0, end) && From(rest, end)
    ensures var tail := if pages == [] then 0 else end; Chain(pages, 0, tail) && From(rest, tail)
  {
  }

  lemma MorePages(pages: seq<Meta>, was: seq<Meta>, objects: seq<seq<Entry>>, more: seq<Meta>, k: nat)
    requires Bounded(pages, was, k) && Backed(pages, was, objects) && AtMost(more, k)
    ensures Bounded(pages + more, was, k) && Backed(pages + more, was, objects + Objects(more))
  {
    var all := pages + more;
    forall j | 0 <= j < |all|
      ensures all[j].page in objects + Objects(more) || exists h :: 0 <= h < |was| && was[h].page == all[j].page
    {
      if j >= |pages| { assert all[j].page == Objects(more)[j - |pages|]; }
    }
  }

  lemma {:induction false} NoStray(d: Directory, list: seq<Entry>, n: nat)
    requires Valid(d, list) && n <= |d.pages|
    ensures Stray(d, list, n).None?
  {
    hide Part, Valid;
    if n > 0 {
      NoStray(d, list, n - 1);
      if !IsLoaded(d, n - 1) { PartUnloaded(d, list, n - 1); }
    }
  }

  // The open page starts at an entry of the list, or where it did.
  lemma {:induction false} TailWithin(open: seq<Entry>, tail: nat, k: nat, below: nat, most: nat)
    requires k > 0 && tail <= most && forall e :: e in open ==> e.key <= most
    ensures SealTail(open, tail, k, below).2 <= most
    decreases |open|
  {
    hide MetaOf;
    if |open| > k && open[k].key <= below {
      TailWithin(open[k..], open[k].key, k, below, most);
    }
  }

  lemma SortMembers(s: seq<Entry>)
    ensures forall e :: e in Sort(s, ByKey) ==> e in s
  {
    hide Sort;
    var t := Sort(s, ByKey);
    forall e | e in t ensures e in s {
      assert e in multiset(t);
      assert e in multiset(s);
    }
  }

  // --- sealing a shortened directory is the same -----------------------------

  lemma {:induction false} PartShortened(d: Directory, list: seq<Entry>, i: nat)
    requires Chain(d.pages, 0, d.tailFrom) && i < |d.pages| - 1
    ensures Part(Shortened(d), list, Some(i)) == Part(d, list, Some(i))
  {
    hide PageFor, Chain, Shortened;
    if list != [] {
      PartShortened(d, list[..|list| - 1], i);
      ReopenedPlaces(d, list[|list| - 1].key);
    }
  }

  lemma {:induction false} OpenShortened(d: Directory, list: seq<Entry>)
    requires Chain(d.pages, 0, d.tailFrom) && d.pages != [] && Part(d, list, None) == []
    ensures Part(Shortened(d), list, None) == Part(d, list, Some(|d.pages| - 1))
  {
    hide PageFor, Chain, Shortened;
    if list != [] {
      OpenShortened(d, list[..|list| - 1]);
      ReopenedPlaces(d, list[|list| - 1].key);
    }
  }

  lemma {:induction false} RebuildShortened(d: Directory, list: seq<Entry>, n: nat, k: nat)
    requires Chain(d.pages, 0, d.tailFrom) && d.pages != [] && n < |d.pages| && k > 0
    ensures Rebuild(Shortened(d), list, n, k) == Rebuild(d, list, n, k)
    ensures Stray(Shortened(d), list, n) == Stray(d, list, n)
  {
    hide Part, Chain, Chunks, Sort, Changed, PageFor;
    if n > 0 {
      RebuildShortened(d, list, n - 1, k);
      PartShortened(d, list, n - 1);
    }
  }

  // Sealing publishes exactly what the list holds, in memory and out of it: nothing lost,
  // nothing twice, every key in the page that is looked up for it. It fails only when the
  // directory is full. No page grows past the bound, every page the new directory names
  // is an old object or one to be written, and the open page starts no later than the
  // lowest key that may still be appended.
  lemma SealKeeps(d: Directory, list: seq<Entry>, keepTail: bool, below: nat, maxEntries: nat, maxPages: nat)
    requires Valid(d, list)
    ensures match Seal(d, list, keepTail, below, maxEntries, maxPages)
            case Err(e) => e.DirectoryFull?
            case Ok((out, objects)) =>
              && Valid(out, list) && Stored(out, list) == Whole(d, list) == Whole(out, list) && |out.pages| <= maxPages
              && Bounded(out.pages, d.pages, AtLeastOne(maxEntries)) && Backed(out.pages, d.pages, objects)
              && (out.tailFrom <= d.tailFrom || out.tailFrom <= below)
  {
    hide Rebuild, SealTail, Stray, Chain, Placed, DistinctKeys, Stored, Whole, Bounded, Backed, Part, Sort, Trues,
         Objects;
    var s, k := Source(d, list, keepTail), AtLeastOne(maxEntries);
    SourceKeeps(d, list, keepTail);
    NoStray(s, list, |s.pages|);
    ResealKeeps(s, list, k, below);
    var (out, objects) := Resealed(s, list, |s.pages|, s.tailFrom, Part(s, list, None), k, below);
    SourcePages(d, list, keepTail, out.pages, objects, k);
    if Reopens(d, list, keepTail) {
      RebuildShortened(d, list, |s.pages|, k);
      OpenShortened(d, list);
    }
  }

  lemma SourcePages(d: Directory, list: seq<Entry>, keepTail: bool, pages: seq<Meta>, objects: seq<seq<Entry>>, k: nat)
    requires var s := Source(d, list, keepTail); Bounded(pages, s.pages, k) && Backed(pages, s.pages, objects)
    ensures Bounded(pages, d.pages, k) && Backed(pages, d.pages, objects)
  {
    hide Part;
    var s := Source(d, list, keepTail);
    assert forall i :: 0 <= i < |s.pages| ==> s.pages[i] == d.pages[i];
  }

  // Validity is needed. An entry below the first key of the first page is looked up in that
  // page, but cutting the page again then gives pages whose first keys descend.
  const LOW := Entry(1, None, [])
  const HIGH := Entry(10, None, [])
  const ONE_PAGE := Directory([MetaOf([HIGH], 10)], 20, [true])

  lemma BelowFirstKey()
    ensures PageFor(ONE_PAGE, LOW.key) == Some(0) && Seal(ONE_PAGE, [LOW, HIGH], false, 0, 1, 9).Ok?
    ensures var pages := Seal(ONE_PAGE, [LOW, HIGH], false, 0, 1, 9).value.0.pages;
            |pages| == 2 && pages[0].firstKey > pages[1].firstKey
  {
    hide AcceptRange, Chunks, Rebuild, Part, Sort, Changed, StartedBy, PageFor;
    var list := [LOW, HIGH];
    OnePageParts();
    RebuildZero(ONE_PAGE, list, 1);
    RebuildStep(ONE_PAGE, list, 1, 1);
    var m := ONE_PAGE.pages[0];
    TwoChunks(m.firstKey);
    assert Sort([], ByKey) == [];
  }

  lemma OnePageParts()
    ensures PageFor(ONE_PAGE, 1) == Some(0)
    ensures Part(ONE_PAGE, [LOW, HIGH], Some(0)) == [LOW, HIGH] == Sort([LOW, HIGH], ByKey)
    ensures Part(ONE_PAGE, [LOW, HIGH], None) == []
  {
    hide PageFor, Part, Sort;
    OnePagePlaces();
    var none: seq<Entry> := [];
    forall place: Option<nat>
      ensures Part(ONE_PAGE, [LOW, HIGH], place) == if place == Some(0) then [LOW, HIGH] else none
    {
      assert none + [LOW] == [LOW] && [LOW] + [HIGH] == [LOW, HIGH];
      PartEmpty(ONE_PAGE, none, place);
      PartLast(ONE_PAGE, none, LOW, place);
      PartLast(ONE_PAGE, [LOW], HIGH, place);
    }
    SortedStays([LOW, HIGH]);
  }

  lemma PartLast(d: Directory, list: seq<Entry>, e: Entry, place: Option<nat>)
    ensures Part(d, list + [e], place) == Part(d, list, place) + if PageFor(d, e.key) == place then [e] else []
  {
    hide PageFor;
    assert (list + [e])[..|list|] == list;
  }

  lemma SortedStays(s: seq<Entry>)
    requires StrictlySorted(s)
    ensures Sort(s, ByKey) == s
  {
    hide Sort;
    SortSorted(s, ByKey);
    forall x, y | x in s && y in s && ByKey(x, y) && ByKey(y, x) ensures x == y {
      var i :| 0 <= i < |s| && s[i] == x;
      var j :| 0 <= j < |s| && s[j] == y;
    }
    assert Sorted(s, ByKey);
    SortedUniqueOn(s, Sort(s, ByKey), ByKey);
  }

  lemma OnePagePlaces()
    ensures PageFor(ONE_PAGE, 1) == Some(0) && PageFor(ONE_PAGE, 10) == Some(0)
  {
    assert ONE_PAGE.pages[1..] == [];
  }

  lemma TwoChunks(firstKey: nat)
    ensures Chunks([LOW, HIGH], firstKey, 1) == [MetaOf([LOW], firstKey), MetaOf([HIGH], 2)]
  {
    hide AcceptRange, Chunks, MetaOf;
    var none: seq<Entry> := [];
    ChunksStep([LOW, HIGH], firstKey, 1);
    assert [LOW, HIGH][..1] == [LOW] && [LOW, HIGH][1..] == [HIGH];
    ChunksStep([HIGH], 2, 1);
    assert [HIGH][..1] == [HIGH] && [HIGH][1..] == none;
    ChunksStep(none, 11, 1);
  }

  // A list that keeps its tail has an empty open page after a seal exactly when no entry
  // was open and the last page, if it was in memory, had none left either.
  lemma TailKept(d: Directory, list: seq<Entry>, keepTail: bool, below: nat, maxEntries: nat, maxPages: nat)
    requires Valid(d, list) && Seal(d, list, keepTail, below, maxEntries, maxPages).Ok?
    ensures var out := Seal(d, list, keepTail, below, maxEntries, maxPages).value.0;
            Part(out, list, None) == []
            <==> Part(d, list, None) == [] && (Reopens(d, list, keepTail) ==> Part(d, list, Some(|d.pages| - 1)) == [])
  {
    hide Rebuild, SealTail, Stray, Chain, Placed, DistinctKeys, Part, Sort, Trues, Objects;
    var s, k := Source(d, list, keepTail), AtLeastOne(maxEntries);
    SourceKeeps(d, list, keepTail);
    if Reopens(d, list, keepTail) {
      RebuildShortened(d, list, |s.pages|, k);
      OpenShortened(d, list);
    }
    OpenAfter(s, list, k, below);
  }

  lemma OpenAfter(d: Directory, list: seq<Entry>, k: nat, below: nat)
    requires Valid(d, list) && k > 0
    ensures var out := Resealed(d, list, |d.pages|, d.tailFrom, Part(d, list, None), k, below).0;
            Part(out, list, None) == [] <==> Part(d, list, None) == []
  {
    hide Rebuild, Part, Stored, Whole, Sort, Contents;
    ResealKeeps(d, list, k, below);
    var open := Sort(Part(d, list, None), ByKey);
    OpenFrom(d, list);
    SealTailFacts(open, d.tailFrom, k, below);
    EmptyTail(open, d.tailFrom, k, below);
  }

  lemma EmptyTail(open: seq<Entry>, tail: nat, k: nat, below: nat)
    requires k > 0
    ensures open == [] ==> SealTail(open, tail, k, below).1 == []
  {
  }

  // Sealed, published and read again, a list is the list it was.
  lemma PublishRoundTrip(d: Directory, list: seq<Entry>, keepTail: bool, below: nat, maxEntries: nat, maxPages: nat)
    requires Valid(d, list) && Seal(d, list, keepTail, below, maxEntries, maxPages).Ok?
    ensures var out := Seal(d, list, keepTail, below, maxEntries, maxPages).value.0;
            var (r, inline) := Reread(out, list);
            Valid(r, inline) && Whole(r, inline) == Whole(d, list)
  {
    hide Seal, Valid, Whole, Stored, Reread;
    SealKeeps(d, list, keepTail, below, maxEntries, maxPages);
    RereadKeeps(Seal(d, list, keepTail, below, maxEntries, maxPages).value.0, list);
  }

  // --- the sealing loops -----------------------------------------------------

  // Files every entry under its page or as open.
  method Distribute(d: Directory, list: seq<Entry>) returns (byPage: seq<seq<Entry>>, open: seq<Entry>)
    ensures |byPage| == |d.pages| && forall i :: 0 <= i < |byPage| ==> byPage[i] == Part(d, list, Some(i))
    ensures open == Part(d, list, None)
  {
    hide PageFor;
    byPage, open := seq(|d.pages|, _ => []), [];
    for h := 0 to |list|
      invariant |byPage| == |d.pages| && forall i :: 0 <= i < |byPage| ==> byPage[i] == Part(d, list[..h], Some(i))
      invariant open == Part(d, list[..h], None)
    {
      assert list[..h + 1][..h] == list[..h];
      var place := PageFor(d, list[h].key);
      if place.Some? {
        byPage := byPage[place.value := byPage[place.value] + [list[h]]];
      } else {
        open := open + [list[h]];
      }
    }
    assert list[..|list|] == list;
  }

  // The chunks of one loaded page, and those of them to write.
  method RebuildPage(entries: seq<Entry>, m: Meta, k: nat) returns (pages: seq<Meta>, objects: seq<seq<Entry>>)
    requires k > 0
    ensures pages == Chunks(entries, m.firstKey, k) && objects == Changed(pages, m)
  {
    hide Chunks, MetaOf, Changed;
    pages, objects := [], [];
    ChangedNone(m);
    var at: nat, first: nat := 0, m.firstKey;
    assert entries[0..] == entries;
    while at < |entries|
      invariant at <= |entries| && objects == Changed(pages, m)
      invariant pages + Chunks(entries[at..], first, k) == Chunks(entries, m.firstKey, k)
      decreases |entries| - at
    {
      NextChunk(pages, entries, at, first, k);
      var size := if |entries| - at < k then |entries| - at else k;
      var chunk := entries[at..at + size];
      var meta := MetaOf(chunk, first);
      MetaPage(chunk, first);
      if meta != m {
        objects := objects + [chunk];
      }
      ChangedStep(pages, meta, m);
      pages := pages + [meta];
      first := entries[at + size - 1].key + 1;
      at := at + size;
    }
    ChunksStep(entries[at..], first, k);
    assert pages + [] == pages;
  }

  lemma NextChunk(pages: seq<Meta>, entries: seq<Entry>, at: nat, first: nat, k: nat)
    requires at < |entries| && k > 0
    ensures var size := if |entries| - at < k then |entries| - at else k;
            pages + Chunks(entries[at..], first, k)
            == pages + [MetaOf(entries[at..at + size], first)]
               + Chunks(entries[at + size..], entries[at + size - 1].key + 1, k)
  {
    hide Chunks, MetaOf;
    var size := if |entries| - at < k then |entries| - at else k;
    ChunksStep(entries[at..], first, k);
    assert entries[at..][..size] == entries[at..at + size] && entries[at..][size..] == entries[at + size..];
  }

  lemma ChangedNone(m: Meta)
    ensures Changed([], m) == []
  {
  }

  lemma ChangedStep(pages: seq<Meta>, last: Meta, m: Meta)
    ensures Changed(pages + [last], m) == Changed(pages, m) + if last != m then [last.page] else []
  {
    assert (pages + [last])[..|pages|] == pages;
  }

  lemma MetaPage(chunk: seq<Entry>, firstKey: nat)
    ensures MetaOf(chunk, firstKey).page == chunk
  {
  }

  // Full pages off the front of the sorted open entries.
  method SealOpen(open: seq<Entry>, tail: nat, k: nat, below: nat) returns (pages: seq<Meta>, end: nat)
    requires k > 0
    ensures pages == SealTail(open, tail, k, below).0 && end == SealTail(open, tail, k, below).2
  {
    hide MetaOf;
    pages, end := [], tail;
    var start: nat := 0;
    assert open[0..] == open;
    while |open| - start > k && open[start + k].key <= below
      invariant start <= |open|
      invariant pages + SealTail(open[start..], end, k, below).0 == SealTail(open, tail, k, below).0
      invariant SealTail(open[start..], end, k, below).2 == SealTail(open, tail, k, below).2
      decreases |open| - start
    {
      var rest := open[start..];
      assert rest[..k] == open[start..start + k] && rest[k..] == open[start + k..];
      pages := pages + [MetaOf(open[start..start + k], open[start].key)];
      end := open[start + k].key;
      start := start + k;
    }
  }

  lemma {:induction false} StrayFrom(d: Directory, list: seq<Entry>, i: nat, n: nat)
    requires i < n && Stray(d, list, i).None? && !IsLoaded(d, i) && Part(d, list, Some(i)) != []
    ensures Stray(d, list, n) == Some(i)
  {
    hide Part;
    if i < n - 1 { StrayFrom(d, list, i, n - 1); }
  }

  // The first n pages, or the first of them that has entries without being loaded.
  method RebuildPages(d: Directory, list: seq<Entry>, byPage: seq<seq<Entry>>, n: nat, k: nat)
    returns (r: Result<Rebuilt, nat>)
    requires k > 0 && n <= |d.pages| && n <= |byPage| && forall i :: 0 <= i < n ==> byPage[i] == Part(d, list, Some(i))
    ensures r == if Stray(d, list, n).Some? then Err(Stray(d, list, n).value) else Ok(Rebuild(d, list, n, k))
  {
    hide Part, Sort, Chunks, Changed, IsLoaded, Trues, Rebuild, Stray;
    var out := Rebuilt([], [], []);
    RebuildZero(d, list, k);
    for i := 0 to n
      invariant out == Rebuild(d, list, i, k) && Stray(d, list, i).None?
    {
      RebuildStep(d, list, i + 1, k);
      StrayStep(d, list, i);
      if !IsLoaded(d, i) {
        if byPage[i] != [] {
          StrayFrom(d, list, i, n);
          return Err(i);
        }
        out := Rebuilt(out.pages + [d.pages[i]], out.loaded + [false], out.objects);
      } else {
        var c, written := RebuildPage(Sort(byPage[i], ByKey), d.pages[i], k);
        out := Rebuilt(out.pages + c, out.loaded + Trues(|c|), out.objects + written);
      }
    }
    r := Ok(out);
  }

  method SealList(d: Directory, list: seq<Entry>, keepTail: bool, below: nat, maxEntries: nat, maxPages: nat)
    returns (r: Result<(Directory, seq<seq<Entry>>), PageError>)
    ensures r == Seal(d, list, keepTail, below, maxEntries, maxPages)
  {
    hide Part, Sort, SealTail, IsLoaded, Objects, Trues, Rebuild, Stray;
    var k := AtLeastOne(maxEntries);
    var byPage, open := Distribute(d, list);
    var n: nat, tail: nat := |d.pages|, d.tailFrom;
    if keepTail && n > 0 && open == [] && IsLoaded(d, n - 1) {
      n := n - 1;
      open, tail := byPage[n], if n == 0 then 0 else d.pages[n].firstKey;
    }
    var built := RebuildPages(d, list, byPage, n, k);
    if built.Err? {
      return Err(NotLoaded(built.error));
    }
    var out := built.value;
    var more, end := SealOpen(Sort(open, ByKey), tail, k, below);
    var pages := out.pages + more;
    if |pages| > maxPages {
      return Err(DirectoryFull(maxPages));
    }
    var sealed := Directory(pages, if pages == [] then 0 else end, out.loaded + Trues(|more|));
    r := Ok((sealed, out.objects + Objects(more)));
  }

  lemma RebuildZero(d: Directory, list: seq<Entry>, k: nat)
    requires k > 0
    ensures Rebuild(d, list, 0, k) == Rebuilt([], [], []) && Stray(d, list, 0).None?
  {
  }

  lemma StrayStep(d: Directory, list: seq<Entry>, i: nat)
    ensures Stray(d, list, i).None? && (IsLoaded(d, i) || Part(d, list, Some(i)) == []) ==> Stray(d, list, i + 1).None?
  {
    hide Part;
  }
}
