/**
 Reading an agent's events after a cursor. Pages are attached one at a time, pages that
 cannot hold the asked operation are passed over, and reading stops as soon as enough
 events are in hand. The answer is the one a scan of the whole list would give.
 */
module EventsRead {
  import opened IndexPages
  import opened Sorting
  import opened Wrappers

  predicate Wanted(e: Entry, after: nat, op: Option<nat>) { e.key > after && (op.None? || e.accept == op) }

  function Want(list: seq<Entry>, after: nat, op: Option<nat>): (r: seq<Entry>)
    ensures forall e :: e in r <==> e in list && Wanted(e, after, op)
  {
    if list == [] then []
    else
      var n := |list| - 1;
      assert list == list[..n] + [list[n]];
      Want(list[..n], after, op) + if Wanted(list[n], after, op) then [list[n]] else []
  }

  function Take(s: seq<Entry>, limit: nat): seq<Entry> { if limit < |s| then s[..limit] else s }

  // The answer by definition: the first wanted entries of everything the list holds.
  function FirstWanted(all: seq<Entry>, after: nat, limit: nat, op: Option<nat>): seq<Entry> {
    Take(Sort(Want(all, after, op), ByKey), limit)
  }

  // --- the read --------------------------------------------------------------

  predicate MayHold(m: Meta, op: Option<nat>) { op.None? || m.accepts.0 <= op.value <= m.accepts.1 }

  // How many wanted entries below a key are in memory.
  function InHand(list: seq<Entry>, after: nat, bound: nat, op: Option<nat>): nat {
    if list == [] then 0
    else
      var n := |list| - 1;
      InHand(list[..n], after, bound, op) + if Wanted(list[n], after, op) && list[n].key < bound then 1 else 0
  }

  // The list in memory once the pages from a given one on were attached as needed, and how
  // many that took.
  function Gather(d: Directory, list: seq<Entry>, page: nat, after: nat, limit: nat, op: Option<nat>)
    : (r: Result<(seq<Entry>, nat), AttachError>)
    decreases |d.pages| - page
  {
    if page >= |d.pages| then Ok((list, 0))
    else if !MayHold(d.pages[page], op) then Gather(d, list, page + 1, after, limit, op)
    else if InHand(list, after, d.pages[page].firstKey, op) >= limit then Ok((list, 0))
    else
      match Attach(d, list, page, d.pages[page].page)
      case Err(e) => Err(e)
      case Ok((d', list')) =>
        AttachPages(d, list, page);
        match Gather(d', list', page + 1, after, limit, op)
        case Err(e) => Err(e)
        case Ok((end, loads)) => Ok((end, loads + if IsLoaded(d, page) then 0 else 1))
  }

  lemma AttachPages(d: Directory, list: seq<Entry>, i: nat)
    requires i < |d.pages| && Attach(d, list, i, d.pages[i].page).Ok?
    ensures Attach(d, list, i, d.pages[i].page).value.0.pages == d.pages
  {
    hide PageFor, AcceptRange, Sort;
  }

  function FirstPage(d: Directory, after: nat): nat {
    var p := PageFor(d, after + 1);
    if p.Some? then p.value else |d.pages|
  }

  function EventsIn(d: Directory, list: seq<Entry>, after: nat, limit: nat, op: Option<nat>)
    : Result<seq<Entry>, AttachError>
  {
    match Gather(d, list, FirstPage(d, after), after, limit, op)
    case Err(e) => Err(e)
    case Ok((end, _)) => Ok(FirstWanted(end, after, limit, op))
  }

  method ReadEvents(d: Directory, list: seq<Entry>, after: nat, limit: nat, op: Option<nat>)
    returns (r: Result<seq<Entry>, AttachError>)
    ensures r == EventsIn(d, list, after, limit, op)
  {
    hide Attach, InHand, PageFor, Want, Sort;
    var head, events := d, list;
    var p := PageFor(d, after + 1);
    if p.Some? {
      var page: nat := p.value;
      var stop := false;
      while page < |head.pages| && !stop
        invariant stop ==> GatheredList(d, list, after, limit, op) == Ok(events)
        invariant !stop ==>
                    GatheredList(d, list, after, limit, op) == ListOf(Gather(head, events, page, after, limit, op))
        decreases |head.pages| - page, !stop
      {
        var meta := head.pages[page];
        if !MayHold(meta, op) {
          page := page + 1;
        } else if InHand(events, after, meta.firstKey, op) >= limit {
          stop := true;
        } else {
          var attached := Attach(head, events, page, meta.page);
          if attached.Err? {
            return Err(attached.error);
          }
          AttachPages(head, events, page);
          head, events := attached.value.0, attached.value.1;
          page := page + 1;
        }
      }
    }
    r := Ok(FirstWanted(events, after, limit, op));
  }

  function ListOf(g: Result<(seq<Entry>, nat), AttachError>): Result<seq<Entry>, AttachError> {
    match g case Err(e) => Err(e) case Ok((list, _)) => Ok(list)
  }

  function GatheredList(d: Directory, list: seq<Entry>, after: nat, limit: nat, op: Option<nat>)
    : Result<seq<Entry>, AttachError>
  {
    ListOf(Gather(d, list, FirstPage(d, after), after, limit, op))
  }

  // --- everything the list holds ---------------------------------------------

  lemma HeldNothing(d: Directory)
    requires forall i :: 0 <= i < |d.pages| ==> IsLoaded(d, i)
    ensures Held(d.pages, Flags(d, |d.pages|), false) == multiset{}
  {
    hide Held, IsLoaded;
    forall e ensures e !in Held(d.pages, Flags(d, |d.pages|), false) {
      if e in Held(d.pages, Flags(d, |d.pages|), false) { HeldMember(d.pages, Flags(d, |d.pages|), false, e); }
    }
  }

  // No two entries of a list share a key, wherever they are held.
  lemma {:induction false} WholeDistinct(d: Directory, list: seq<Entry>, i: nat, all: seq<Entry>)
    requires Valid(d, list) && multiset(all) == Whole(d, list) && i <= |d.pages|
    requires forall j :: 0 <= j < i ==> IsLoaded(d, j)
    ensures DistinctKeys(all)
    decreases |d.pages| - i
  {
    hide Attach, IsLoaded, Chain, Placed, DistinctKeys, Held;
    if i == |d.pages| {
      HeldNothing(d);
      DistinctPermuted(list, all);
    } else {
      AttachKeeps(d, list, i);
      var (d', list') := Attach(d, list, i, d.pages[i].page).value;
      WholeDistinct(d', list', i + 1, all);
    }
  }

  // --- sorting what is wanted ------------------------------------------------

  lemma WantStep(list: seq<Entry>, after: nat, op: Option<nat>)
    ensures Want(list, after, op) ==
            if list == [] then []
            else
              var n := |list| - 1;
              Want(list[..n], after, op) + if Wanted(list[n], after, op) then [list[n]] else []
  {
  }

  lemma {:induction false} WantCount(list: seq<Entry>, after: nat, op: Option<nat>, e: Entry)
    ensures multiset(Want(list, after, op))[e] == if Wanted(e, after, op) then multiset(list)[e] else 0
  {
    hide Wanted, Want;
    WantStep(list, after, op);
    if list != [] {
      var n := |list| - 1;
      WantCount(list[..n], after, op, e);
      assert list == list[..n] + [list[n]];
      CountLast(list[..n], list[n], e);
      CountLast(Want(list[..n], after, op), list[n], e);
    }
  }

  lemma {:induction false} WantDistinct(list: seq<Entry>, after: nat, op: Option<nat>)
    requires DistinctKeys(list)
    ensures DistinctKeys(Want(list, after, op))
  {
    hide Wanted;
    if list != [] {
      var n := |list| - 1;
      WantDistinct(list[..n], after, op);
      var before := Want(list[..n], after, op);
      forall i | 0 <= i < |before| ensures before[i].key != list[n].key { assert before[i] in list[..n]; }
    }
  }

  // Entries with distinct keys are sorted in one way only.
  lemma SortSame(s: seq<Entry>, t: seq<Entry>)
    requires DistinctKeys(s) && multiset(s) == multiset(t)
    ensures Sort(s, ByKey) == Sort(t, ByKey)
  {
    hide Sort, DistinctKeys;
    SortStrict(s);
    DistinctPermuted(s, t);
    SortStrict(t);
    StrictUnique(Sort(s, ByKey), Sort(t, ByKey));
  }

  lemma StrictUnique(s: seq<Entry>, t: seq<Entry>)
    requires StrictlySorted(s) && StrictlySorted(t) && multiset(s) == multiset(t)
    ensures s == t
  {
    assert Sorted(s, ByKey) && Sorted(t, ByKey);
    forall x, y | x in s && y in s && ByKey(x, y) && ByKey(y, x) ensures x == y {
      var i :| 0 <= i < |s| && s[i] == x;
      var j :| 0 <= j < |s| && s[j] == y;
    }
    SortedUniqueOn(s, t, ByKey);
  }

  // The entries below a key.
  function Below(s: seq<Entry>, bound: nat): (r: seq<Entry>)
    ensures |r| <= |s|
  {
    if s == [] then []
    else
      var n := |s| - 1;
      Below(s[..n], bound) + if s[n].key < bound then [s[n]] else []
  }

  lemma {:induction false} BelowCount(s: seq<Entry>, bound: nat, e: Entry)
    ensures multiset(Below(s, bound))[e] == if e.key < bound then multiset(s)[e] else 0
  {
    hide Below;
    BelowStep(s, bound);
    if s != [] {
      var n := |s| - 1;
      BelowCount(s[..n], bound, e);
      assert s == s[..n] + [s[n]];
      CountLast(s[..n], s[n], e);
      CountLast(Below(s[..n], bound), s[n], e);
    }
  }

  lemma CountLast(s: seq<Entry>, last: Entry, e: Entry)
    ensures multiset(s + [last])[e] == multiset(s)[e] + if last == e then 1 else 0
  {
  }

  lemma BelowStep(s: seq<Entry>, bound: nat)
    ensures Below(s, bound) ==
            if s == [] then [] else Below(s[..|s| - 1], bound) + if s[|s| - 1].key < bound then [s[|s| - 1]] else []
  {
  }

  // In a sorted list they come first.
  lemma {:induction false} BelowPrefix(s: seq<Entry>, bound: nat)
    requires StrictlySorted(s)
    ensures Below(s, bound) <= s
    ensures s != [] && s[|s| - 1].key < bound ==> Below(s, bound) == s
  {
    hide Below;
    BelowStep(s, bound);
    if s != [] {
      var n := |s| - 1;
      BelowPrefix(s[..n], bound);
      assert s == s[..n] + [s[n]];
      if s[n].key < bound {
        assert n > 0 ==> s[..n][n - 1].key < s[n].key;
        assert Below(s[..n], bound) == s[..n];
      } else {
        assert Below(s, bound) == Below(s[..n], bound);
      }
    }
  }

  lemma PrefixStrict(s: seq<Entry>, p: seq<Entry>)
    requires StrictlySorted(s) && p <= s
    ensures StrictlySorted(p)
  {
  }

  lemma {:induction false} InHandCount(list: seq<Entry>, after: nat, bound: nat, op: Option<nat>)
    ensures InHand(list, after, bound, op) == |Below(Want(list, after, op), bound)|
  {
    hide Wanted;
    if list != [] {
      var n := |list| - 1;
      InHandCount(list[..n], after, bound, op);
      var before := Want(list[..n], after, op);
      assert (before + [list[n]])[..|before|] == before;
      assert before + [] == before;
    }
  }

  // With enough wanted entries below a key in memory, what is held above it cannot matter.
  lemma Enough(list: seq<Entry>, all: seq<Entry>, after: nat, bound: nat, limit: nat, op: Option<nat>)
    requires DistinctKeys(all) && DistinctKeys(list) && SameLow(list, all, after, bound, op)
    requires InHand(list, after, bound, op) >= limit
    ensures FirstWanted(list, after, limit, op) == FirstWanted(all, after, limit, op)
  {
    hide DistinctKeys, Want, Wanted, Sort, Below, StrictlySorted, InHand, SameLow, Take;
    var w, v := Want(list, after, op), Want(all, after, op);
    WantDistinct(list, after, op);
    WantDistinct(all, after, op);
    SortStrict(w);
    SortStrict(v);
    var b, a := Sort(w, ByKey), Sort(v, ByKey);
    BelowPrefix(b, bound);
    BelowPrefix(a, bound);
    PrefixStrict(b, Below(b, bound));
    PrefixStrict(a, Below(a, bound));
    SameBelow(list, all, after, bound, op, b, a);
    InHandCount(list, after, bound, op);
    BelowLength(w, b, bound);
    TakeCommon(b, a, Below(b, bound), limit);
  }

  ghost predicate SameLow(list: seq<Entry>, all: seq<Entry>, after: nat, bound: nat, op: Option<nat>) {
    forall e :: Wanted(e, after, op) && e.key < bound ==> multiset(all)[e] == multiset(list)[e]
  }

  lemma SameBelow(list: seq<Entry>, all: seq<Entry>, after: nat, bound: nat, op: Option<nat>, b: seq<Entry>,
                  a: seq<Entry>)
    requires SameLow(list, all, after, bound, op) && StrictlySorted(Below(b, bound)) && StrictlySorted(Below(a, bound))
    requires multiset(b) == multiset(Want(list, after, op)) && multiset(a) == multiset(Want(all, after, op))
    ensures Below(b, bound) == Below(a, bound)
  {
    hide Want, Below, StrictlySorted, Wanted;
    forall e ensures multiset(Below(b, bound))[e] == multiset(Below(a, bound))[e] {
      BelowCount(b, bound, e);
      BelowCount(a, bound, e);
      WantCount(list, after, op, e);
      WantCount(all, after, op, e);
    }
    StrictUnique(Below(b, bound), Below(a, bound));
  }

  lemma TakeCommon(b: seq<Entry>, a: seq<Entry>, p: seq<Entry>, limit: nat)
    requires p <= b && p <= a && limit <= |p|
    ensures Take(b, limit) == Take(a, limit)
  {
  }

  lemma BelowLength(s: seq<Entry>, t: seq<Entry>, bound: nat)
    requires multiset(s) == multiset(t)
    ensures |Below(s, bound)| == |Below(t, bound)|
  {
    hide Below;
    forall e ensures multiset(Below(s, bound))[e] == multiset(Below(t, bound))[e] {
      BelowCount(s, bound, e);
      BelowCount(t, bound, e);
    }
    assert multiset(Below(s, bound)) == multiset(Below(t, bound));
    assert |Below(s, bound)| == |multiset(Below(s, bound))|;
  }

  // With every wanted entry in memory there is nothing to add.
  lemma NothingMore(list: seq<Entry>, all: seq<Entry>, after: nat, limit: nat, op: Option<nat>)
    requires DistinctKeys(list) && forall e :: Wanted(e, after, op) ==> multiset(all)[e] == multiset(list)[e]
    ensures FirstWanted(list, after, limit, op) == FirstWanted(all, after, limit, op)
  {
    hide DistinctKeys, Want, Wanted, Sort;
    forall e ensures multiset(Want(list, after, op))[e] == multiset(Want(all, after, op))[e] {
      WantCount(list, after, op, e);
      WantCount(all, after, op, e);
    }
    WantDistinct(list, after, op);
    SortSame(Want(list, after, op), Want(all, after, op));
  }

  // --- the read gives the answer ---------------------------------------------

  // No page before a given one that is not in memory holds a wanted entry.
  ghost predicate Behind(d: Directory, page: nat, after: nat, op: Option<nat>) {
    forall i, e :: 0 <= i < page && i < |d.pages| && !IsLoaded(d, i) && e in d.pages[i].page ==> !Wanted(e, after, op)
  }

  lemma PageKeys(d: Directory, i: nat, e: Entry)
    requires Chain(d.pages, 0, d.tailFrom) && i < |d.pages| && e in d.pages[i].page
    ensures d.pages[i].firstKey <= e.key < Next(d.pages, i, d.tailFrom) <= d.tailFrom
  {
    hide Described;
    assert Linked(d.pages, i, 0, d.tailFrom);
    assert Described(d.pages[i], Next(d.pages, i, d.tailFrom));
    ChainBelow(d.pages, 0, d.tailFrom, i);
    InPage(d, i, e);
    PageAbove(d.pages[i], Next(d.pages, i, d.tailFrom), e);
  }

  lemma PageAbove(m: Meta, hi: nat, e: Entry)
    requires Described(m, hi) && e in m.page
    ensures e.key < hi
  {
  }

  lemma StartBehind(d: Directory, after: nat, op: Option<nat>)
    requires Chain(d.pages, 0, d.tailFrom)
    ensures Behind(d, FirstPage(d, after), after, op)
  {
    hide Chain, StartedBy, IsLoaded;
    var first := FirstPage(d, after);
    forall i, e | 0 <= i < first && i < |d.pages| && e in d.pages[i].page ensures e.key <= after {
      PageKeys(d, i, e);
      if first < |d.pages| && i + 1 < first { ChainAscends(d.pages, 0, d.tailFrom, i + 1, first); }
    }
  }

  lemma {:induction false} AcceptIn(entries: seq<Entry>, e: Entry)
    requires e in entries && e.accept.Some?
    ensures e.accept.value in Accepts(entries)
  {
    var i :| 0 <= i < |entries| && entries[i] == e;
  }

  // A page whose range does not hold an operation holds no event of it.
  lemma RangeExcludes(m: Meta, hi: nat, op: Option<nat>, e: Entry)
    requires Described(m, hi) && !MayHold(m, op) && e in m.page
    ensures e.accept != op
  {
    hide StrictlySorted, Least;
    if e.accept.Some? { AcceptIn(m.page, e); }
  }

  lemma SkipBehind(d: Directory, page: nat, after: nat, op: Option<nat>)
    requires Chain(d.pages, 0, d.tailFrom) && page < |d.pages| && Behind(d, page, after, op)
             && !MayHold(d.pages[page], op)
    ensures Behind(d, page + 1, after, op)
  {
    hide Described, MayHold, IsLoaded;
    assert Linked(d.pages, page, 0, d.tailFrom);
    forall e | e in d.pages[page].page ensures !Wanted(e, after, op) {
      RangeExcludes(d.pages[page], Next(d.pages, page, d.tailFrom), op, e);
      NoneMayHold(d.pages[page], op);
    }
  }

  lemma NoneMayHold(m: Meta, op: Option<nat>)
    requires !MayHold(m, op)
    ensures op.Some?
  {
  }

  // A wanted entry not in memory is in a page from the given one on.
  lemma UnloadedAbove(d: Directory, page: nat, after: nat, op: Option<nat>, e: Entry)
    requires Chain(d.pages, 0, d.tailFrom) && Behind(d, page, after, op) && Wanted(e, after, op)
    requires e in Held(d.pages, Flags(d, |d.pages|), false)
    ensures page < |d.pages| && d.pages[page].firstKey <= e.key
  {
    hide Chain, Held, IsLoaded, Wanted;
    HeldMember(d.pages, Flags(d, |d.pages|), false, e);
    var j :| 0 <= j < |d.pages| && !IsLoaded(d, j) && e in d.pages[j].page;
    PageKeys(d, j, e);
    if page < j { ChainAscends(d.pages, 0, d.tailFrom, page, j); }
  }

  lemma SameWanted(d: Directory, list: seq<Entry>, all: seq<Entry>, page: nat, after: nat, op: Option<nat>, e: Entry)
    requires Valid(d, list) && multiset(all) == Whole(d, list) && Behind(d, page, after, op)
    requires Wanted(e, after, op) && (page < |d.pages| ==> e.key < d.pages[page].firstKey)
    ensures multiset(all)[e] == multiset(list)[e]
  {
    hide Held, Chain, Placed, DistinctKeys, Wanted, Behind, Flags;
    if e in Held(d.pages, Flags(d, |d.pages|), false) { UnloadedAbove(d, page, after, op, e); }
  }

  // Gathering page by page and stopping early gives what the whole list would.
  lemma {:induction false} GatherExact(d: Directory, list: seq<Entry>, page: nat, after: nat, limit: nat,
                                       op: Option<nat>, all: seq<Entry>)
    requires Valid(d, list) && multiset(all) == Whole(d, list) && DistinctKeys(all) && Behind(d, page, after, op)
    ensures var g := Gather(d, list, page, after, limit, op);
            g.Ok? && FirstWanted(g.value.0, after, limit, op) == FirstWanted(all, after, limit, op)
    decreases |d.pages| - page
  {
    hide Attach, InHand, Whole, Behind, Chain, Placed, DistinctKeys, Want, Sort, Wanted, MayHold, FirstWanted, IsLoaded;
    if page >= |d.pages| {
      forall e | Wanted(e, after, op) ensures multiset(all)[e] == multiset(list)[e] {
        SameWanted(d, list, all, page, after, op, e);
      }
      NothingMore(list, all, after, limit, op);
    } else if !MayHold(d.pages[page], op) {
      SkipBehind(d, page, after, op);
      GatherExact(d, list, page + 1, after, limit, op, all);
    } else if InHand(list, after, d.pages[page].firstKey, op) >= limit {
      forall e | Wanted(e, after, op) && e.key < d.pages[page].firstKey ensures multiset(all)[e] == multiset(list)[e] {
        SameWanted(d, list, all, page, after, op, e);
      }
      Enough(list, all, after, d.pages[page].firstKey, limit, op);
    } else {
      AttachKeeps(d, list, page);
      AttachBehind(d, list, page, after, op);
      var (d', list') := Attach(d, list, page, d.pages[page].page).value;
      GatherExact(d', list', page + 1, after, limit, op, all);
    }
  }

  lemma AttachBehind(d: Directory, list: seq<Entry>, page: nat, after: nat, op: Option<nat>)
    requires Valid(d, list) && page < |d.pages| && Behind(d, page, after, op)
    ensures Attach(d, list, page, d.pages[page].page).Ok?
    ensures Behind(Attach(d, list, page, d.pages[page].page).value.0, page + 1, after, op)
  {
    hide Attach, Whole, Chain, Placed, DistinctKeys, Wanted, IsLoaded;
    AttachKeeps(d, list, page);
  }

  // Whatever is in memory, the read answers with the first wanted events of the whole list.
  lemma ReadExact(d: Directory, list: seq<Entry>, all: seq<Entry>, after: nat, limit: nat, op: Option<nat>)
    requires Valid(d, list) && multiset(all) == Whole(d, list)
    ensures EventsIn(d, list, after, limit, op) == Ok(FirstWanted(all, after, limit, op))
  {
    hide Gather, Whole, Behind, Chain, Placed, DistinctKeys, FirstWanted;
    WholeDistinct(d, list, 0, all);
    StartBehind(d, after, op);
    GatherExact(d, list, FirstPage(d, after), after, limit, op, all);
  }

  // --- how many pages a read attaches ----------------------------------------

  lemma InHandBag(s: seq<Entry>, t: seq<Entry>, after: nat, bound: nat, op: Option<nat>)
    requires multiset(s) == multiset(t)
    ensures InHand(s, after, bound, op) == InHand(t, after, bound, op)
  {
    hide Want, Below, InHand;
    InHandCount(s, after, bound, op);
    InHandCount(t, after, bound, op);
    forall e ensures multiset(Want(s, after, op))[e] == multiset(Want(t, after, op))[e] {
      WantCount(s, after, op, e);
      WantCount(t, after, op, e);
    }
    BelowLength(Want(s, after, op), Want(t, after, op), bound);
  }

  lemma {:induction false} InHandConcat(s: seq<Entry>, t: seq<Entry>, after: nat, bound: nat, op: Option<nat>)
    ensures InHand(s + t, after, bound, op) == InHand(s, after, bound, op) + InHand(t, after, bound, op)
  {
    hide Wanted;
    if t == [] {
      assert s + t == s;
    } else {
      var n := |t| - 1;
      InHandConcat(s, t[..n], after, bound, op);
      assert (s + t)[..|s| + n] == s + t[..n];
    }
  }

  lemma {:induction false} InHandGrows(s: seq<Entry>, after: nat, bound: nat, more: nat, op: Option<nat>)
    requires bound <= more
    ensures InHand(s, after, bound, op) <= InHand(s, after, more, op)
  {
    hide Wanted;
    if s != [] { InHandGrows(s[..|s| - 1], after, bound, more, op); }
  }

  lemma {:induction false} InHandAll(s: seq<Entry>, after: nat, bound: nat)
    requires forall e :: e in s ==> after < e.key < bound
    ensures InHand(s, after, bound, None) == |s|
  {
    if s != [] {
      var n := |s| - 1;
      InHandAll(s[..n], after, bound);
    }
  }

  // Attaching a page brings all of its entries into hand.
  lemma AttachGains(d: Directory, list: seq<Entry>, page: nat, after: nat)
    requires Valid(d, list) && page < |d.pages| && after < d.pages[page].firstKey
    ensures Attach(d, list, page, d.pages[page].page).Ok?
    ensures var list' := Attach(d, list, page, d.pages[page].page).value.1;
            InHand(list', after, Next(d.pages, page, d.tailFrom), None)
            >= InHand(list, after, d.pages[page].firstKey, None) + if IsLoaded(d, page) then 0 else |d.pages[page].page|
  {
    hide Attach, Chain, Placed, DistinctKeys, InHand, Whole;
    AttachKeeps(d, list, page);
    var list' := Attach(d, list, page, d.pages[page].page).value.1;
    var m, hi := d.pages[page], Next(d.pages, page, d.tailFrom);
    PageHigher(d, page);
    InHandGrows(list, after, m.firstKey, hi, None);
    if IsLoaded(d, page) {
      InHandBag(list, list', after, hi, None);
    } else {
      InHandBag(list + m.page, list', after, hi, None);
      InHandConcat(list, m.page, after, hi, None);
      forall e | e in m.page ensures after < e.key < hi { PageKeys(d, page, e); }
      InHandAll(m.page, after, hi);
    }
  }

  lemma PageHigher(d: Directory, i: nat)
    requires Chain(d.pages, 0, d.tailFrom) && i < |d.pages|
    ensures d.pages[i].firstKey < Next(d.pages, i, d.tailFrom)
  {
    hide Described;
    assert Linked(d.pages, i, 0, d.tailFrom);
  }

  // Every page from a given one on has at least m entries.
  ghost predicate Filled(d: Directory, page: nat, m: nat) {
    forall i :: page <= i < |d.pages| ==> |d.pages[i].page| >= m
  }

  // One turn of an unfiltered read.
  lemma GatherStep(d: Directory, list: seq<Entry>, page: nat, after: nat, limit: nat)
    requires Valid(d, list)
    ensures Gather(d, list, page, after, limit, None) ==
            if page >= |d.pages| || InHand(list, after, d.pages[page].firstKey, None) >= limit then Ok((list, 0))
            else
              match Attach(d, list, page, d.pages[page].page)
              case Err(e) => Err(e)
              case Ok((d', list')) =>
                match Gather(d', list', page + 1, after, limit, None)
                case Err(e) => Err(e)
                case Ok((end, loads)) => Ok((end, loads + if IsLoaded(d, page) then 0 else 1))
  {
    hide Attach, InHand, Valid, Whole, IsLoaded;
  }

  // From a page wholly after the cursor on, with h events in hand: no more attached pages
  // than it takes to fill the limit.
  lemma {:induction false} LoadsFrom(d: Directory, list: seq<Entry>, page: nat, after: nat, limit: nat, m: nat, h: nat)
    requires Valid(d, list) && Filled(d, page, m)
    requires page < |d.pages| ==>
               after < d.pages[page].firstKey && InHand(list, after, d.pages[page].firstKey, None) >= h
    ensures var g := Gather(d, list, page, after, limit, None);
            g.Ok? && (g.value.1 > 0 ==> (g.value.1 - 1) * m < limit - h)
    decreases |d.pages| - page
  {
    hide Attach, InHand, Whole, Chain, Placed, DistinctKeys, IsLoaded, Gather;
    GatherStep(d, list, page, after, limit);
    if page < |d.pages| && InHand(list, after, d.pages[page].firstKey, None) < limit {
      AttachKeeps(d, list, page);
      AttachGains(d, list, page, after);
      PageHigher(d, page);
      var (d', list') := Attach(d, list, page, d.pages[page].page).value;
      LoadsFrom(d', list', page + 1, after, limit, m, h + if IsLoaded(d, page) then 0 else m);
      var loads := Gather(d', list', page + 1, after, limit, None).value.1;
      if loads > 0 { assert loads * m == (loads - 1) * m + m; }
    }
  }

  // A read of the whole log attaches at most ceil(limit / m) + 1 pages when every sealed
  // page has at least m entries, however long the history is.
  lemma LoadsBounded(d: Directory, list: seq<Entry>, after: nat, limit: nat, m: nat)
    requires Valid(d, list) && m > 0 && Filled(d, 0, m)
    ensures var g := Gather(d, list, FirstPage(d, after), after, limit, None);
            g.Ok? && (g.value.1 > 1 ==> (g.value.1 - 2) * m < limit)
  {
    hide Attach, InHand, Whole, Chain, Placed, DistinctKeys, IsLoaded, PageFor, Gather;
    var page := FirstPage(d, after);
    GatherStep(d, list, page, after, limit);
    if page < |d.pages| && InHand(list, after, d.pages[page].firstKey, None) < limit {
      AttachKeeps(d, list, page);
      var (d', list') := Attach(d, list, page, d.pages[page].page).value;
      if page + 1 < |d.pages| { AfterFirst(d, after); }
      LoadsFrom(d', list', page + 1, after, limit, m, 0);
      var loads := Gather(d', list', page + 1, after, limit, None).value.1;
      assert (loads - 2) * m == (loads - 1) * m - m;
    }
  }

  // The page after the one a cursor falls into starts behind the cursor.
  lemma AfterFirst(d: Directory, after: nat)
    requires Chain(d.pages, 0, d.tailFrom) && FirstPage(d, after) + 1 < |d.pages|
    ensures after < d.pages[FirstPage(d, after) + 1].firstKey
  {
    hide Chain, StartedBy;
    if FirstPage(d, after) == 0 { ChainAscends(d.pages, 0, d.tailFrom, 0, 1); }
  }
}
