/**
 The bounded index pages of an agent's lists. A list is held as sealed pages, described in
 a directory, and an open page kept inline; pages are attached to the list in memory only
 as they are needed, which changes nothing about what the list holds. A page's object
 reference stands for the page's content.
 */
module IndexPages {
  import opened Sorting
  import opened Wire
  import opened Wrappers

  datatype Entry = Entry(key: nat, accept: Option<nat>, body: Bytes)

  datatype Meta = Meta(firstKey: nat, page: seq<Entry>, entries: nat, accepts: (nat, nat))

  datatype Directory = Directory(pages: seq<Meta>, tailFrom: nat, loaded: seq<bool>)

  predicate ByKey(a: Entry, b: Entry) { a.key <= b.key }

  // --- where a key lives -----------------------------------------------------

  // How many leading pages start at or below a key.
  function StartedBy(pages: seq<Meta>, key: nat): (n: nat)
    ensures n <= |pages|
    ensures forall i :: 0 <= i < n ==> pages[i].firstKey <= key
    ensures n < |pages| ==> pages[n].firstKey > key
  {
    if pages == [] || pages[0].firstKey > key then 0 else 1 + StartedBy(pages[1..], key)
  }

  function PageFor(d: Directory, key: nat): (r: Option<nat>)
    ensures r.Some? ==> r.value < |d.pages|
  {
    if d.pages == [] || key >= d.tailFrom then None
    else
      var after := StartedBy(d.pages, key);
      Some(if after == 0 then 0 else after - 1)
  }

  predicate IsLoaded(d: Directory, i: nat) { i < |d.loaded| && d.loaded[i] }

  // The least and greatest acceptance number of some entries, zeros when they have none.
  function AcceptRange(entries: seq<Entry>): (nat, nat) {
    var a := Accepts(entries);
    if a == [] then (0, 0) else (Least(a, UpTo), Least(a, DownTo))
  }

  function Accepts(entries: seq<Entry>): (r: seq<nat>)
    ensures forall i :: 0 <= i < |entries| && entries[i].accept.Some? ==> entries[i].accept.value in r
  {
    if entries == [] then []
    else
      var n := |entries| - 1;
      Accepts(entries[..n]) + if entries[n].accept.Some? then [entries[n].accept.value] else []
  }

  predicate UpTo(a: nat, b: nat) { a <= b }

  predicate DownTo(a: nat, b: nat) { a >= b }

  // Both ends of the range are taken, when there is any.
  lemma RangeTight(entries: seq<Entry>)
    requires Accepts(entries) != []
    ensures AcceptRange(entries).0 in Accepts(entries) && AcceptRange(entries).1 in Accepts(entries)
  {
    hide Accepts;
  }

  // --- well-formed directories -----------------------------------------------

  function Next(pages: seq<Meta>, j: nat, hi: nat): nat { if j + 1 < |pages| then pages[j + 1].firstKey else hi }

  ghost predicate StrictlySorted(s: seq<Entry>) { forall i, j :: 0 <= i < j < |s| ==> s[i].key < s[j].key }

  // A page that its directory entry describes, with keys from its first key up to hi.
  ghost predicate Described(m: Meta, hi: nat) {
    && m.page != [] && StrictlySorted(m.page) && m.entries == |m.page| && m.accepts == AcceptRange(m.page)
    && forall e :: e in m.page ==> m.firstKey <= e.key < hi
  }

  // Pages whose key ranges follow each other from lo to hi.
  ghost predicate Chain(pages: seq<Meta>, lo: nat, hi: nat) {
    lo <= hi && forall j :: 0 <= j < |pages| ==> Linked(pages, j, lo, hi)
  }

  ghost predicate Linked(pages: seq<Meta>, j: nat, lo: nat, hi: nat)
    requires j < |pages|
  {
    lo <= pages[j].firstKey < Next(pages, j, hi) && Described(pages[j], Next(pages, j, hi))
  }

  lemma {:induction false} ChainAscends(pages: seq<Meta>, lo: nat, hi: nat, i: nat, j: nat)
    requires Chain(pages, lo, hi) && i < j <= |pages|
    ensures pages[i].firstKey < Next(pages, j - 1, hi) <= hi
    decreases j - i
  {
    hide Described;
    assert Linked(pages, j - 1, lo, hi);
    if i < j - 1 { ChainAscends(pages, lo, hi, i, j - 1); }
    ChainBelow(pages, lo, hi, j - 1);
  }

  lemma {:induction false} ChainBelow(pages: seq<Meta>, lo: nat, hi: nat, j: nat)
    requires Chain(pages, lo, hi) && j < |pages|
    ensures Next(pages, j, hi) <= hi
    decreases |pages| - j
  {
    hide Described;
    if j + 1 < |pages| {
      assert Linked(pages, j + 1, lo, hi);
      ChainBelow(pages, lo, hi, j + 1);
    }
  }

  // A key in a page's range is looked up there.
  lemma PageForChain(d: Directory, lo: nat, j: nat, key: nat)
    requires Chain(d.pages, lo, d.tailFrom) && j < |d.pages|
             && d.pages[j].firstKey <= key < Next(d.pages, j, d.tailFrom)
    ensures PageFor(d, key) == Some(j)
  {
    hide Linked, Described, Chain, StartedBy;
    ChainBelow(d.pages, lo, d.tailFrom, j);
    var n := StartedBy(d.pages, key);
    if n <= j {
      if n < j { ChainAscends(d.pages, lo, d.tailFrom, n, j); }
      assert false;
    }
  }

  lemma ChainConcat(a: seq<Meta>, b: seq<Meta>, lo: nat, mid: nat, hi: nat)
    requires Chain(a, lo, mid) && Chain(b, mid, hi)
    ensures Chain(a + b, lo, hi)
  {
    hide Described;
    var all := a + b;
    forall j | 0 <= j < |all| ensures Linked(all, j, lo, hi) {
      if j < |a| {
        assert Linked(a, j, lo, mid);
        if b != [] { assert Linked(b, 0, mid, hi); }
        DescribedLoose(a[j], Next(a, j, mid), Next(all, j, hi));
      } else {
        assert Linked(b, j - |a|, mid, hi);
      }
    }
  }

  lemma DescribedLoose(m: Meta, hi: nat, hi': nat)
    requires Described(m, hi) && hi <= hi'
    ensures Described(m, hi')
  {
    hide AcceptRange, StrictlySorted;
  }

  lemma ChainEmpty(lo: nat, hi: nat)
    requires lo <= hi
    ensures Chain([], lo, hi)
  {
  }

  // --- a list in memory ------------------------------------------------------

  ghost predicate DistinctKeys(list: seq<Entry>) { forall i, j :: 0 <= i < j < |list| ==> list[i].key != list[j].key }

  // An entry in memory belongs to the open page or to a page that is loaded.
  ghost predicate Placed(d: Directory, e: Entry) {
    var i := PageFor(d, e.key);
    i.Some? ==> IsLoaded(d, i.value) && d.pages[i.value].firstKey <= e.key
  }

  ghost predicate Valid(d: Directory, list: seq<Entry>) {
    && Chain(d.pages, 0, d.tailFrom) && (d.pages == [] ==> d.tailFrom == 0)
    && DistinctKeys(list) && forall e :: e in list ==> Placed(d, e)
  }

  // The entries of a list that a key lookup sends to one place.
  function Part(d: Directory, list: seq<Entry>, place: Option<nat>): (r: seq<Entry>)
    ensures forall e :: e in r <==> e in list && PageFor(d, e.key) == place
  {
    if list == [] then []
    else
      var n := |list| - 1;
      assert list == list[..n] + [list[n]];
      Part(d, list[..n], place) + if PageFor(d, list[n].key) == place then [list[n]] else []
  }

  function Contents(pages: seq<Meta>): multiset<Entry> {
    if pages == [] then multiset{}
    else
      var n := |pages| - 1;
      Contents(pages[..n]) + multiset(pages[n].page)
  }

  lemma {:induction false} ContentsConcat(a: seq<Meta>, b: seq<Meta>)
    ensures Contents(a + b) == Contents(a) + Contents(b)
  {
    hide Contents;
    ContentsStep(b);
    if b == [] {
      assert a + b == a;
    } else {
      var n := |b| - 1;
      ContentsConcat(a, b[..n]);
      ContentsStep(a + b);
      assert (a + b)[..|a| + n] == a + b[..n];
    }
  }

  lemma ContentsStep(pages: seq<Meta>)
    ensures Contents(pages) ==
            if pages == [] then multiset{} else Contents(pages[..|pages| - 1]) + multiset(pages[|pages| - 1].page)
  {
  }

  // The content of the pages that are, or are not, in memory.
  function Held(pages: seq<Meta>, loaded: seq<bool>, flag: bool): multiset<Entry>
    requires |pages| == |loaded|
  {
    if pages == [] then multiset{}
    else
      var n := |pages| - 1;
      Held(pages[..n], loaded[..n], flag) + if loaded[n] == flag then multiset(pages[n].page) else multiset{}
  }

  lemma {:induction false} HeldConcat(a: seq<Meta>, la: seq<bool>, b: seq<Meta>, lb: seq<bool>, flag: bool)
    requires |a| == |la| && |b| == |lb|
    ensures Held(a + b, la + lb, flag) == Held(a, la, flag) + Held(b, lb, flag)
  {
    hide Held;
    HeldStep(b, lb, flag);
    if b == [] {
      assert a + b == a && la + lb == la;
    } else {
      var n := |b| - 1;
      HeldConcat(a, la, b[..n], lb[..n], flag);
      HeldStep(a + b, la + lb, flag);
      assert (a + b)[..|a| + n] == a + b[..n] && (la + lb)[..|a| + n] == la + lb[..n];
    }
  }

  lemma HeldStep(pages: seq<Meta>, loaded: seq<bool>, flag: bool)
    requires |pages| == |loaded|
    ensures Held(pages, loaded, flag) ==
            if pages == [] then multiset{}
            else
              var n := |pages| - 1;
              Held(pages[..n], loaded[..n], flag) + if loaded[n] == flag then multiset(pages[n].page) else multiset{}
  {
  }

  lemma {:induction false} HeldBoth(pages: seq<Meta>, loaded: seq<bool>)
    requires |pages| == |loaded|
    ensures Contents(pages) == Held(pages, loaded, true) + Held(pages, loaded, false)
  {
    hide Held, Contents;
    ContentsStep(pages);
    HeldStep(pages, loaded, true);
    HeldStep(pages, loaded, false);
    if pages != [] { HeldBoth(pages[..|pages| - 1], loaded[..|pages| - 1]); }
  }

  lemma {:induction false} HeldMember(pages: seq<Meta>, loaded: seq<bool>, flag: bool, e: Entry)
    requires |pages| == |loaded| && e in Held(pages, loaded, flag)
    ensures exists j :: 0 <= j < |pages| && loaded[j] == flag && e in pages[j].page
  {
    var n := |pages| - 1;
    if e in Held(pages[..n], loaded[..n], flag) {
      HeldMember(pages[..n], loaded[..n], flag, e);
      var j :| 0 <= j < n && loaded[..n][j] == flag && e in pages[..n][j].page;
      assert loaded[j] == flag && e in pages[j].page;
    } else {
      assert loaded[n] == flag && e in pages[n].page;
    }
  }

  // Which pages are in memory; missing flags count as not.
  function Flags(d: Directory, n: nat): (r: seq<bool>)
    ensures |r| == n && forall i :: 0 <= i < n ==> r[i] == IsLoaded(d, i)
  {
    seq(n, i requires i >= 0 => IsLoaded(d, i))
  }

  // Everything the list holds, in memory or not.
  function Whole(d: Directory, list: seq<Entry>): multiset<Entry> {
    multiset(list) + Held(d.pages, Flags(d, |d.pages|), false)
  }

  // What a published root holds: its pages, and its open page inline.
  function Stored(d: Directory, list: seq<Entry>): multiset<Entry> {
    Contents(d.pages) + multiset(Part(d, list, None))
  }

  // The parts that go to the first n pages, together.
  function Parts(d: Directory, list: seq<Entry>, n: nat): multiset<Entry> {
    if n == 0 then multiset{} else Parts(d, list, n - 1) + multiset(Part(d, list, Some(n - 1)))
  }

  lemma PartStep(d: Directory, list: seq<Entry>, e: Entry, place: Option<nat>)
    ensures PageFor(d, e.key) == place ==>
              multiset(Part(d, list + [e], place)) == multiset(Part(d, list, place)) + multiset{e}
    ensures PageFor(d, e.key) != place ==> Part(d, list + [e], place) == Part(d, list, place)
  {
    assert (list + [e])[..|list|] == list;
  }

  lemma {:induction false} PartsStep(d: Directory, list: seq<Entry>, e: Entry, n: nat)
    ensures var i := PageFor(d, e.key);
            Parts(d, list + [e], n) ==
            if i.Some? && i.value < n then Parts(d, list, n) + multiset{e} else Parts(d, list, n)
  {
    hide PageFor, Part, Parts;
    PartsUnfold(d, list, n);
    PartsUnfold(d, list + [e], n);
    if n > 0 {
      PartsStep(d, list, e, n - 1);
      PartStep(d, list, e, Some(n - 1));
      var i, a, b := PageFor(d, e.key), Parts(d, list, n - 1), multiset(Part(d, list, Some(n - 1)));
      BagSum(a, b, e);
    }
  }

  lemma BagSum(a: multiset<Entry>, b: multiset<Entry>, e: Entry)
    ensures a + (b + multiset{e}) == (a + multiset{e}) + b == a + b + multiset{e}
    ensures a + multiset{} == a
  {
  }

  lemma PartsUnfold(d: Directory, list: seq<Entry>, n: nat)
    ensures Parts(d, list, n) ==
            if n == 0 then multiset{} else Parts(d, list, n - 1) + multiset(Part(d, list, Some(n - 1)))
  {
  }

  lemma {:induction false} PartsNone(d: Directory, n: nat)
    ensures Parts(d, [], n) == multiset{}
  {
    if n > 0 { PartsNone(d, n - 1); }
  }

  // Every entry goes to exactly one place.
  lemma {:induction false} PartsCover(d: Directory, list: seq<Entry>)
    ensures multiset(list) == Parts(d, list, |d.pages|) + multiset(Part(d, list, None))
  {
    hide PageFor, Part, Parts;
    if list == [] {
      PartsNone(d, |d.pages|);
      PartNothing(d);
    } else {
      var n := |list| - 1;
      PartsCover(d, list[..n]);
      PartsStep(d, list[..n], list[n], |d.pages|);
      PartStep(d, list[..n], list[n], None);
      assert list == list[..n] + [list[n]];
    }
  }

  lemma PartNothing(d: Directory)
    ensures Part(d, [], None) == []
  {
  }

  lemma {:induction false} PartDistinct(d: Directory, list: seq<Entry>, place: Option<nat>)
    requires DistinctKeys(list)
    ensures DistinctKeys(Part(d, list, place))
  {
    hide PageFor;
    if list != [] {
      var n := |list| - 1;
      PartDistinct(d, list[..n], place);
      var before := Part(d, list[..n], place);
      forall i | 0 <= i < |before| ensures before[i].key != list[n].key { assert before[i] in list[..n]; }
    }
  }

  // Sorting entries with distinct keys sorts them strictly.
  lemma SortStrict(s: seq<Entry>)
    requires DistinctKeys(s)
    ensures StrictlySorted(Sort(s, ByKey)) && forall e :: e in Sort(s, ByKey) <==> e in s
  {
    hide Sort;
    SortSorted(s, ByKey);
    var t := Sort(s, ByKey);
    forall e ensures e in t <==> e in s { assert e in multiset(t) <==> e in multiset(s); }
    DistinctPermuted(s, t);
    assert forall i, j :: 0 <= i < j < |t| ==> ByKey(t[i], t[j]);
  }

  lemma DistinctPermuted(s: seq<Entry>, t: seq<Entry>)
    requires DistinctKeys(s) && multiset(s) == multiset(t)
    ensures DistinctKeys(t)
  {
    forall i, j | 0 <= i < j < |t| ensures t[i].key != t[j].key {
      if t[i] == t[j] {
        TwiceIn(t, i, j);
        OnceIn(s, t[i]);
      } else {
        assert t[i] in multiset(t) && t[j] in multiset(t);
        assert t[i] in multiset(s) && t[j] in multiset(s);
        var a :| 0 <= a < |s| && s[a] == t[i];
        var b :| 0 <= b < |s| && s[b] == t[j];
        assert a < b || b < a;
      }
    }
  }

  // An entry of a page is looked up in that page.
  lemma InPage(d: Directory, j: nat, e: Entry)
    requires Chain(d.pages, 0, d.tailFrom) && j < |d.pages| && e in d.pages[j].page
    ensures PageFor(d, e.key) == Some(j) && d.pages[j].firstKey <= e.key
  {
    hide PageFor;
    assert Linked(d.pages, j, 0, d.tailFrom);
    PageForChain(d, 0, j, e.key);
  }

  lemma HeldOne(m: Meta, b: bool, flag: bool)
    ensures Held([m], [b], flag) == if b == flag then multiset(m.page) else multiset{}
  {
    assert [m][..0] == [] && [b][..0] == [];
  }

  lemma HeldPrefix(d: Directory, n: nat, flag: bool)
    requires 0 < n <= |d.pages|
    ensures Held(d.pages[..n], Flags(d, n), flag) ==
            Held(d.pages[..n - 1], Flags(d, n - 1), flag)
            + if IsLoaded(d, n - 1) == flag then multiset(d.pages[n - 1].page) else multiset{}
  {
    hide Held;
    HeldStep(d.pages[..n], Flags(d, n), flag);
    assert d.pages[..n][..n - 1] == d.pages[..n - 1] && Flags(d, n)[..n - 1] == Flags(d, n - 1);
  }

  lemma ContentsNone()
    ensures Contents([]) == multiset{}
  {
  }

  // --- attaching a page ------------------------------------------------------

  datatype AttachError = NoSuchPage | WrongHash | WrongCount | WrongRange | WrongAccepts

  function MarkLoaded(d: Directory, i: nat): (r: seq<bool>)
    requires i < |d.pages|
    ensures |r| >= |d.pages| && forall j :: 0 <= j < |d.pages| ==> r[j] == (IsLoaded(d, j) || j == i)
  {
    var padded := if |d.loaded| < |d.pages| then d.loaded + seq(|d.pages| - |d.loaded|, _ => false) else d.loaded;
    padded[i := true]
  }

  // Refuses what is not the page the directory describes; a page already there changes
  // nothing.
  function Attach(d: Directory, list: seq<Entry>, i: nat, bytes: seq<Entry>)
    : Result<(Directory, seq<Entry>), AttachError>
  {
    if i >= |d.pages| then Err(NoSuchPage)
    else if bytes != d.pages[i].page then Err(WrongHash)
    else if IsLoaded(d, i) then Ok((d, list))
    else if |bytes| != d.pages[i].entries then Err(WrongCount)
    else if exists h :: 0 <= h < |bytes| && PageFor(d, bytes[h].key) != Some(i) then Err(WrongRange)
    else if AcceptRange(bytes) != d.pages[i].accepts then Err(WrongAccepts)
    else Ok((d.(loaded := MarkLoaded(d, i)), Sort(list + bytes, ByKey)))
  }

  lemma {:induction false} HeldSet(pages: seq<Meta>, loaded: seq<bool>, i: nat)
    requires |pages| == |loaded| && i < |pages| && !loaded[i]
    ensures Held(pages, loaded, false) == Held(pages, loaded[i := true], false) + multiset(pages[i].page)
  {
    hide Held;
    var n := |pages| - 1;
    HeldStep(pages, loaded, false);
    HeldStep(pages, loaded[i := true], false);
    if i < n {
      HeldSet(pages[..n], loaded[..n], i);
      assert loaded[i := true][..n] == loaded[..n][i := true];
    } else {
      assert loaded[i := true][..n] == loaded[..n];
    }
  }

  // A page not in memory shares no key with the list.
  lemma PageApart(d: Directory, list: seq<Entry>, i: nat)
    requires Valid(d, list) && i < |d.pages| && !IsLoaded(d, i)
    ensures DistinctKeys(list + d.pages[i].page)
  {
    hide PageFor, Chain, Described, StrictlySorted;
    var page := d.pages[i].page;
    forall e, f | e in list && f in page ensures e.key != f.key {
      assert Placed(d, e);
      InPage(d, i, f);
    }
    PageDistinct(d, i);
  }

  lemma PageDistinct(d: Directory, i: nat)
    requires Chain(d.pages, 0, d.tailFrom) && i < |d.pages|
    ensures DistinctKeys(d.pages[i].page) && |d.pages[i].page| == d.pages[i].entries
    ensures AcceptRange(d.pages[i].page) == d.pages[i].accepts
  {
    hide AcceptRange;
    assert Linked(d.pages, i, 0, d.tailFrom);
  }

  // A described page is always accepted, and attaching it changes nothing about what the
  // list holds: only what of it is in memory.
  lemma AttachKeeps(d: Directory, list: seq<Entry>, i: nat)
    requires Valid(d, list) && i < |d.pages|
    ensures var r := Attach(d, list, i, d.pages[i].page);
            && r.Ok? && r.value.0.pages == d.pages && r.value.0.tailFrom == d.tailFrom
            && Valid(r.value.0, r.value.1) && Whole(r.value.0, r.value.1) == Whole(d, list)
            && (forall j :: 0 <= j < |d.pages| ==> IsLoaded(r.value.0, j) == (IsLoaded(d, j) || j == i))
            && multiset(r.value.1) == multiset(list) + if IsLoaded(d, i) then multiset{} else multiset(d.pages[i].page)
  {
    hide PageFor, Chain, Sort, Held, AcceptRange, DistinctKeys;
    var page := d.pages[i].page;
    PageDistinct(d, i);
    forall h | 0 <= h < |page| ensures PageFor(d, page[h].key) == Some(i) { InPage(d, i, page[h]); }
    if !IsLoaded(d, i) {
      var (d', list') := Attach(d, list, i, page).value;
      PageApart(d, list, i);
      DistinctPermuted(list + page, list');
      AttachedPlaced(d, list, i, d', list');
      var flags := Flags(d, |d.pages|);
      HeldSet(d.pages, flags, i);
      assert Flags(d', |d.pages|) == flags[i := true];
    }
  }

  // To a valid list exactly the page the directory names is attached.
  lemma AttachIff(d: Directory, list: seq<Entry>, i: nat, bytes: seq<Entry>)
    requires Valid(d, list)
    ensures Attach(d, list, i, bytes).Ok? <==> i < |d.pages| && bytes == d.pages[i].page
  {
    hide Valid, Whole, PageFor, AcceptRange, Sort;
    if i < |d.pages| { AttachKeeps(d, list, i); }
  }

  lemma AttachedPlaced(d: Directory, list: seq<Entry>, i: nat, d': Directory, list': seq<Entry>)
    requires Valid(d, list) && i < |d.pages| && d' == d.(loaded := MarkLoaded(d, i))
    requires multiset(list') == multiset(list + d.pages[i].page)
    ensures forall e :: e in list' ==> Placed(d', e)
  {
    hide Chain, DistinctKeys, StartedBy;
    forall e | e in list' ensures Placed(d', e) {
      assert e in multiset(list');
      assert e in list + d.pages[i].page;
      assert PageFor(d', e.key) == PageFor(d, e.key);
      if e in list { assert Placed(d, e); } else { InPage(d, i, e); }
    }
  }

  // --- publishing and reading again ------------------------------------------

  // A root as it is read: its open page, and no page in memory.
  function Reread(d: Directory, list: seq<Entry>): (Directory, seq<Entry>) {
    (Directory(d.pages, d.tailFrom, []), Part(d, list, None))
  }

  lemma {:induction false} HeldFalse(pages: seq<Meta>, loaded: seq<bool>)
    requires |pages| == |loaded| && forall i :: 0 <= i < |loaded| ==> !loaded[i]
    ensures Held(pages, loaded, false) == Contents(pages)
  {
    hide Held, Contents;
    HeldStep(pages, loaded, false);
    ContentsStep(pages);
    if pages != [] { HeldFalse(pages[..|pages| - 1], loaded[..|pages| - 1]); }
  }

  lemma RereadKeeps(d: Directory, list: seq<Entry>)
    requires Valid(d, list)
    ensures var (r, inline) := Reread(d, list); Valid(r, inline) && Whole(r, inline) == Stored(d, list)
  {
    hide Chain, Part, Held, DistinctKeys, StartedBy;
    var (r, inline) := Reread(d, list);
    PartDistinct(d, list, None);
    assert forall e :: e in inline ==> PageFor(r, e.key) == PageFor(d, e.key) == None;
    HeldFalse(d.pages, Flags(r, |d.pages|));
  }

  // The counts a root answers from: entries in memory and those its directory records for
  // the other pages.
  function Total(d: Directory, inMemory: nat, n: nat): nat
    requires n <= |d.pages|
  {
    if n == 0 then inMemory else Total(d, inMemory, n - 1) + if IsLoaded(d, n - 1) then 0 else d.pages[n - 1].entries
  }

  lemma {:induction false} TotalHeld(d: Directory, inMemory: nat, n: nat)
    requires Chain(d.pages, 0, d.tailFrom) && n <= |d.pages|
    ensures Total(d, inMemory, n) == inMemory + |Held(d.pages[..n], Flags(d, n), false)|
  {
    hide Held, Chain, Flags;
    if n == 0 {
      HeldStep(d.pages[..0], Flags(d, 0), false);
    } else {
      TotalHeld(d, inMemory, n - 1);
      HeldPrefix(d, n, false);
      PageDistinct(d, n - 1);
    }
  }

  // The size of a list is known without reading a page.
  lemma TotalExact(d: Directory, list: seq<Entry>)
    requires Valid(d, list)
    ensures Total(d, |list|, |d.pages|) == |Whole(d, list)|
  {
    hide Held, Chain;
    TotalHeld(d, |list|, |d.pages|);
    assert d.pages[..|d.pages|] == d.pages;
  }
}
