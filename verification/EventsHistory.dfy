/**
 The life of an agent's event log: events are numbered and appended, the list is sealed, the
 root is published and read again. Every root an agent ever publishes serves its whole log,
 so a client can follow the agent across all of them.
 */
module EventsHistory {
  import opened EventsRead
  import opened EventsRoute
  import opened IndexPages
  import opened IndexSeal
  import opened Numbers
  import opened Sorting
  import opened Wire
  import opened Wrappers
  import Client = AgentsClient
  import IndexLife

  // New events take the next numbers.
  ghost predicate Follow(es: seq<Entry>, n: nat) { forall i :: 0 <= i < |es| ==> es[i].key == n + 1 + i }

  // The root after some events were appended to the list in memory, sealed and read again.
  function Publish(d: Directory, list: seq<Entry>, es: seq<Entry>, below: nat, maxEntries: nat, maxPages: nat)
    : Result<(Directory, seq<Entry>), PageError>
  {
    match Seal(d, list + es, false, below, maxEntries, maxPages)
    case Err(e) => Err(e)
    case Ok((out, _)) => Ok(Reread(out, list + es))
  }

  // --- a root with pages attached --------------------------------------------

  // A root, with any of its pages attached, that holds the log from a point on; its first
  // page starts at the first event kept.
  ghost predicate Holds(d: Directory, list: seq<Entry>, next: nat, log: seq<Entry>, trim: nat) {
    && Valid(d, list) && StrictlySorted(list) && (d.pages != [] ==> d.pages[0].firstKey == trim + 1)
    && Numbered(log) && trim <= |log| && next == |log| + 1 && multiset(log[trim..]) == Whole(d, list)
    && d.tailFrom <= next
  }

  // A root as read, with no page attached, is one.
  lemma ServesHolds(d: Directory, list: seq<Entry>, next: nat, log: seq<Entry>, trim: nat)
    requires Serves(d, list, next, log, trim)
    ensures Holds(d, list, next, log, trim)
  {
    hide Whole, Placed, DistinctKeys, Numbered, IsLoaded, Described;
    OldestExact(d, list, next, log, trim);
    if d.pages != [] && list != [] {
      assert list[0] in list;
      OpenAbove(d, list, list[0]);
    }
  }

  lemma OpenAbove(d: Directory, list: seq<Entry>, e: Entry)
    requires Valid(d, list) && e in list && d.pages != [] && forall i :: 0 <= i < |d.pages| ==> !IsLoaded(d, i)
    ensures d.pages[0].firstKey < e.key
  {
    hide IsLoaded, Described, DistinctKeys;
    assert Placed(d, e);
    ChainAscends(d.pages, 0, d.tailFrom, 0, |d.pages|);
  }

  function LoadAll(d: Directory, list: seq<Entry>, pages: seq<nat>): (r: (Directory, seq<Entry>))
    ensures r.0.pages == d.pages
  {
    if pages == [] then (d, list)
    else
      var n := |pages| - 1;
      var (d', list') := LoadAll(d, list, pages[..n]);
      if pages[n] >= |d'.pages| then (d', list') else
      match Attach(d', list', pages[n], d'.pages[pages[n]].page)
      case Err(_) => (d', list')
      case Ok((d'', list'')) =>
        AttachPages(d', list', pages[n]);
        (d'', list'')
  }

  lemma AttachStrict(d: Directory, list: seq<Entry>, i: nat)
    requires Valid(d, list) && StrictlySorted(list) && i < |d.pages| && Attach(d, list, i, d.pages[i].page).Ok?
    ensures StrictlySorted(Attach(d, list, i, d.pages[i].page).value.1)
  {
    hide PageFor, AcceptRange, Sort, Chain;
    if !IsLoaded(d, i) {
      PageApart(d, list, i);
      SortStrict(list + d.pages[i].page);
    }
  }

  // Attaching pages changes nothing about what a root holds.
  lemma {:induction false} LoadAllHolds(d: Directory, list: seq<Entry>, next: nat, log: seq<Entry>, trim: nat,
                                        pages: seq<nat>)
    requires Holds(d, list, next, log, trim)
    ensures var (d', list') := LoadAll(d, list, pages);
            && Holds(d', list', next, log, trim) && d'.tailFrom == d.tailFrom && Whole(d', list') == Whole(d, list)
  {
    hide Attach, Whole, Valid, StrictlySorted, Numbered;
    if pages != [] {
      var n := |pages| - 1;
      LoadAllHolds(d, list, next, log, trim, pages[..n]);
      var (d1, list1) := LoadAll(d, list, pages[..n]);
      if pages[n] < |d1.pages| {
        AttachKeeps(d1, list1, pages[n]);
        AttachStrict(d1, list1, pages[n]);
      }
    }
  }

  // --- appending -------------------------------------------------------------

  lemma NumberedMore(log: seq<Entry>, es: seq<Entry>, trim: nat)
    requires Numbered(log) && Follow(es, |log|) && |log| + |es| + 1 < U64 && trim <= |log|
    ensures Numbered(log + es) && multiset((log + es)[trim..]) == multiset(log[trim..]) + multiset(es)
  {
    assert (log + es)[trim..] == log[trim..] + es;
  }

  // Every entry a list holds is an event of the log.
  lemma ListInLog(d: Directory, list: seq<Entry>, next: nat, log: seq<Entry>, trim: nat)
    requires Holds(d, list, next, log, trim)
    ensures forall e :: e in list ==> e.key <= |log|
  {
    hide Valid, Numbered, StrictlySorted, IsLoaded, Held;
    forall e | e in list ensures e.key <= |log| {
      assert e in multiset(list);
      InWhole(d, list, log, trim, e);
    }
  }

  lemma AppendValid(d: Directory, list: seq<Entry>, next: nat, log: seq<Entry>, trim: nat, es: seq<Entry>)
    requires Holds(d, list, next, log, trim) && Follow(es, |log|)
    ensures Valid(d, list + es) && StrictlySorted(list + es) && Whole(d, list + es) == Whole(d, list) + multiset(es)
  {
    hide Chain, Held, StartedBy, Numbered, IsLoaded;
    ListInLog(d, list, next, log, trim);
    var all := list + es;
    assert StrictlySorted(all);
    forall e | e in all ensures Placed(d, e) {
      if e in list {
        assert Placed(d, e);
      } else {
        var i :| 0 <= i < |es| && es[i] == e;
      }
    }
  }

  lemma AppendHolds(d: Directory, list: seq<Entry>, next: nat, log: seq<Entry>, trim: nat, es: seq<Entry>)
    requires Holds(d, list, next, log, trim) && Follow(es, |log|) && |log| + |es| + 1 < U64
    ensures Holds(d, list + es, next + |es|, log + es, trim)
  {
    hide Valid, Whole, StrictlySorted, Numbered;
    AppendValid(d, list, next, log, trim, es);
    NumberedMore(log, es, trim);
  }

  // --- the first page --------------------------------------------------------

  // The first event a root holds is in the part of the first page, if that is attached.
  lemma FirstInPart(d: Directory, list: seq<Entry>, next: nat, log: seq<Entry>, trim: nat)
    requires Holds(d, list, next, log, trim) && d.pages != []
    ensures trim < |log| && (IsLoaded(d, 0) ==> log[trim] in Part(d, list, Some(0)))
  {
    hide Held, Described, Part, StartedBy, Chain, DistinctKeys, Placed, PageFor;
    FirstKeyInLog(d, next, trim);
    var e := log[trim];
    assert log[trim..][0] == e;
    assert e in multiset(log[trim..]);
    assert e in Whole(d, list);
    if IsLoaded(d, 0) && e !in list {
      assert e in Held(d.pages, Flags(d, |d.pages|), false);
      HeldMember(d.pages, Flags(d, |d.pages|), false, e);
      var j :| 0 <= j < |d.pages| && !IsLoaded(d, j) && e in d.pages[j].page;
      InPage(d, j, e);
    }
  }

  lemma FirstKeyInLog(d: Directory, next: nat, trim: nat)
    requires Chain(d.pages, 0, d.tailFrom) && d.pages != [] && d.pages[0].firstKey == trim + 1 && d.tailFrom <= next
    ensures trim + 1 < next && PageFor(d, trim + 1) == Some(0)
  {
    hide Described;
    assert Linked(d.pages, 0, 0, d.tailFrom);
    ChainAscends(d.pages, 0, d.tailFrom, 0, |d.pages|);
    PageForChain(d, 0, 0, trim + 1);
  }

  // Pages cut again start where the first of them did.
  lemma {:induction false} RebuildFirst(d: Directory, list: seq<Entry>, n: nat, k: nat)
    requires 0 < n <= |d.pages| && k > 0 && (IsLoaded(d, 0) ==> Part(d, list, Some(0)) != [])
    ensures Rebuild(d, list, n, k).pages != [] && Rebuild(d, list, n, k).pages[0].firstKey == d.pages[0].firstKey
  {
    hide Sort, Part, Changed, IsLoaded, Trues, Chunks, Rebuild;
    RebuildStep(d, list, n, k);
    if n > 1 {
      RebuildFirst(d, list, n - 1, k);
    } else {
      RebuildZero(d, list, k);
      FirstChunk(Sort(Part(d, list, Some(0)), ByKey), d.pages[0].firstKey, k);
    }
  }

  lemma FirstChunk(entries: seq<Entry>, firstKey: nat, k: nat)
    requires k > 0
    ensures entries != [] ==> Chunks(entries, firstKey, k) != [] && Chunks(entries, firstKey, k)[0].firstKey == firstKey
  {
  }

  lemma SealTailFirst(open: seq<Entry>, tail: nat, k: nat, below: nat)
    requires k > 0
    ensures var pages := SealTail(open, tail, k, below).0;
            pages != [] ==> open != [] && pages[0].firstKey == open[0].key
  {
  }

  // Without a page, the open entries in order start with the first event.
  lemma OpenFirst(d: Directory, list: seq<Entry>, next: nat, log: seq<Entry>, trim: nat)
    requires Holds(d, list, next, log, trim) && d.pages == [] && Part(d, list, None) != []
    ensures Sort(Part(d, list, None), ByKey)[0].key == trim + 1
  {
    hide Sort, StrictlySorted, Numbered, DistinctKeys, Part;
    var open := Sort(Part(d, list, None), ByKey);
    SortMembers(Part(d, list, None));
    OpenFrom(d, list);
    assert open[0] in open && open[0] in list && open[0] in multiset(list);
    assert Whole(d, list) == multiset(list);
    InWhole(d, list, log, trim, open[0]);
    LeastOpen(d, list, log, trim, open);
  }

  lemma LeastOpen(d: Directory, list: seq<Entry>, log: seq<Entry>, trim: nat, open: seq<Entry>)
    requires d.pages == [] && trim < |log| && Numbered(log) && multiset(log[trim..]) == multiset(list)
    requires open == Sort(Part(d, list, None), ByKey) && open != [] && StrictlySorted(open)
    ensures open[0].key <= trim + 1
  {
    hide Sort;
    var e := log[trim];
    assert log[trim..][0] == e;
    assert e in multiset(log[trim..]);
    assert e in multiset(list);
    assert e in Part(d, list, None);
    assert e in multiset(open);
    var i :| 0 <= i < |open| && open[i] == e;
  }

  // After a seal the first page still starts at the first event kept.
  lemma SealStarts(d: Directory, list: seq<Entry>, next: nat, log: seq<Entry>, trim: nat, below: nat, maxEntries: nat,
                   maxPages: nat)
    requires Holds(d, list, next, log, trim) && Seal(d, list, false, below, maxEntries, maxPages).Ok?
    ensures var out := Seal(d, list, false, below, maxEntries, maxPages).value.0;
            out.pages != [] ==> out.pages[0].firstKey == trim + 1
  {
    hide Rebuild, SealTail, Part, Sort, Valid, StrictlySorted, Numbered, Whole, IsLoaded, Stray, Trues, Objects;
    var k := AtLeastOne(maxEntries);
    if d.pages != [] {
      FirstInPart(d, list, next, log, trim);
      RebuildFirst(d, list, |d.pages|, k);
    } else {
      RebuildZero(d, list, k);
      var open := Sort(Part(d, list, None), ByKey);
      SealTailFirst(open, d.tailFrom, k, below);
      if Part(d, list, None) != [] { OpenFirst(d, list, next, log, trim); }
    }
  }

  // A first page that starts at the first event kept begins with that event.
  lemma FirstPageBegins(d: Directory, list: seq<Entry>, next: nat, log: seq<Entry>, trim: nat)
    requires Holds(d, list, next, log, trim) && d.pages != [] && Stored(d, list) == multiset(log[trim..])
    ensures d.pages[0].page != [] && d.pages[0].page[0].key == trim + 1
  {
    hide Held, Part, Contents, PageFor, DistinctKeys, Placed, Whole, AcceptRange;
    FirstInPart(d, list, next, log, trim);
    FirstKeyInLog(d, next, trim);
    var e := log[trim];
    assert log[trim..][0] == e;
    assert e in multiset(log[trim..]);
    assert e !in Part(d, list, None);
    ContentsPage(d.pages, e);
    var j :| 0 <= j < |d.pages| && e in d.pages[j].page;
    InPage(d, j, e);
    assert Linked(d.pages, 0, 0, d.tailFrom);
    var i :| 0 <= i < |d.pages[0].page| && d.pages[0].page[i] == e;
    assert d.pages[0].page[0] in d.pages[0].page;
  }

  // --- publishing ------------------------------------------------------------

  lemma {:induction false} PartStrict(d: Directory, list: seq<Entry>, place: Option<nat>)
    requires StrictlySorted(list)
    ensures StrictlySorted(Part(d, list, place))
  {
    hide PageFor;
    if list != [] {
      var n := |list| - 1;
      PartStrict(d, list[..n], place);
      var before := Part(d, list[..n], place);
      forall i | 0 <= i < |before| ensures before[i].key < list[n].key { assert before[i] in list[..n]; }
    }
  }

  // Sealing keeps what a root holds, with the first page where it has to be.
  lemma SealHolds(d: Directory, list: seq<Entry>, next: nat, log: seq<Entry>, trim: nat, below: nat, maxEntries: nat,
                  maxPages: nat)
    requires Holds(d, list, next, log, trim) && Seal(d, list, false, below, maxEntries, maxPages).Ok?
    ensures var out := Seal(d, list, false, below, maxEntries, maxPages).value.0;
            && Holds(out, list, next, log, trim) && Stored(out, list) == multiset(log[trim..])
  {
    hide Seal, Valid, Whole, Stored, StrictlySorted, Numbered;
    SealKeeps(d, list, false, below, maxEntries, maxPages);
    SealStarts(d, list, next, log, trim, below, maxEntries, maxPages);
    ListInLog(d, list, next, log, trim);
    IndexLife.TailUnderFloor(IndexLife.Life(d, list, next),
                             IndexLife.Publish(false, below, maxEntries, maxPages, false));
  }

  // A root that holds a log, with whatever pages attached, after a publish of new events
  // and a reading of the new root, serves the longer log.
  lemma PublishServes(d: Directory, list: seq<Entry>, next: nat, log: seq<Entry>, trim: nat, es: seq<Entry>, below: nat,
                      maxEntries: nat, maxPages: nat)
    requires Holds(d, list, next, log, trim) && Follow(es, |log|) && |log| + |es| + 1 < U64
    requires Publish(d, list, es, below, maxEntries, maxPages).Ok?
    ensures var (d', list') := Publish(d, list, es, below, maxEntries, maxPages).value;
            Serves(d', list', next + |es|, log + es, trim)
  {
    hide Seal, Valid, Whole, Stored, Part, StrictlySorted, Numbered, IsLoaded;
    var all := list + es;
    AppendHolds(d, list, next, log, trim, es);
    SealHolds(d, all, next + |es|, log + es, trim, below, maxEntries, maxPages);
    var out := Seal(d, all, false, below, maxEntries, maxPages).value.0;
    RereadKeeps(out, all);
    PartStrict(out, all, None);
    NothingLoaded(out.pages, out.tailFrom);
    if out.pages != [] { FirstPageBegins(out, all, next + |es|, log + es, trim); }
  }

  lemma NothingLoaded(pages: seq<Meta>, tail: nat)
    ensures forall i :: 0 <= i < |pages| ==> !IsLoaded(Directory(pages, tail, []), i)
  {
  }

  // --- a whole history -------------------------------------------------------

  // Some pages are attached, some events appended, the list is sealed.
  datatype Batch = Batch(loads: seq<nat>, events: seq<Entry>, below: nat, maxEntries: nat, maxPages: nat)

  // The root and the log after a history of publishes from a new agent; a publish whose
  // directory would be too long is refused and changes nothing.
  function History(batches: seq<Batch>): Root {
    if batches == [] then Root(Directory([], 0, []), [], 1, [], 0)
    else
      var n := |batches| - 1;
      var r, b := History(batches[..n]), batches[n];
      var (loaded, inMemory) := LoadAll(r.d, r.list, b.loads);
      match Publish(loaded, inMemory, b.events, b.below, b.maxEntries, b.maxPages)
      case Err(_) => r
      case Ok((d, list)) => Root(d, list, r.next + |b.events|, r.log + b.events, r.trim)
  }

  // Each batch is numbered on from the log it is appended to.
  ghost predicate Proper(batches: seq<Batch>) {
    forall n :: 0 <= n < |batches| ==>
      var log := History(batches[..n]).log;
      Follow(batches[n].events, |log|) && |log| + |batches[n].events| + 1 < U64
  }

  // Every root of a history serves everything published so far.
  lemma {:induction false} HistoryServes(batches: seq<Batch>)
    requires Proper(batches)
    ensures var r := History(batches); Serves(r.d, r.list, r.next, r.log, 0) && r.trim == 0
  {
    hide Serves, Publish, Follow, Holds, LoadAll;
    if batches == [] {
      NewServes();
    } else {
      var n := |batches| - 1;
      forall m | 0 <= m < n
        ensures var log := History(batches[..n][..m]).log;
                Follow(batches[..n][m].events, |log|) && |log| + |batches[..n][m].events| + 1 < U64
      {
        assert batches[..n][..m] == batches[..m];
      }
      HistoryServes(batches[..n]);
      var r, b := History(batches[..n]), batches[n];
      ServesHolds(r.d, r.list, r.next, r.log, 0);
      LoadAllHolds(r.d, r.list, r.next, r.log, 0, b.loads);
      var (d, list) := LoadAll(r.d, r.list, b.loads);
      if Publish(d, list, b.events, b.below, b.maxEntries, b.maxPages).Ok? {
        PublishServes(d, list, r.next, r.log, 0, b.events, b.below, b.maxEntries, b.maxPages);
      }
    }
  }

  lemma NewServes()
    ensures Serves(Directory([], 0, []), [], 1, [], 0)
  {
    var log: seq<Entry> := [];
    assert log[0..] == [];
  }

  // The log only grows.
  lemma {:induction false} HistoryGrows(batches: seq<Batch>, n: nat)
    requires n <= |batches|
    ensures History(batches[..n]).log <= History(batches).log
    decreases |batches| - n
  {
    hide Publish;
    if n == |batches| {
      assert batches[..n] == batches;
    } else {
      HistoryGrows(batches, n + 1);
      assert batches[..n + 1][..n] == batches[..n];
    }
  }

  // A client's calls, each failing or answered over the root at some point of a history,
  // give it exactly the published events from its first cursor to its last.
  lemma FollowHistory(agent: Client.AgentRef, start: Option<string>, turns: seq<Client.Turn<Entry>>,
                      batches: seq<Batch>, at: seq<nat>)
    requires Proper(batches) && |at| == |turns| && PositionOf(start) <= |History(batches).log|
    requires forall i :: 0 <= i < |at| ==> at[i] <= |batches| && RootAnswers(turns[i].server, History(batches[..at[i]]))
    ensures var log := History(batches).log;
            var (events, end) := Client.Receive(agent, start, turns);
            PositionOf(start) <= PositionOf(end) <= |log| && events == log[PositionOf(start)..PositionOf(end)]
  {
    hide Serves, AnswersAs, History, PositionOf, Client.Receive, Numbered;
    var full := History(batches).log;
    var roots := seq(|at|, i requires 0 <= i < |at| => History(batches[..at[i]]));
    HistoryServes(batches);
    ServesNumbered(History(batches));
    forall i | 0 <= i < |turns|
      ensures Serves(roots[i].d, roots[i].list, roots[i].next, roots[i].log, roots[i].trim) && roots[i].log <= full
              && roots[i].trim == 0
    {
      ProperPrefix(batches, at[i]);
      HistoryServes(batches[..at[i]]);
      HistoryGrows(batches, at[i]);
    }
    FollowExact(agent, start, turns, roots, full);
  }

  ghost predicate RootAnswers(server: Client.EventsServer<Entry>, r: Root) { AnswersAs(server, r.d, r.list, r.next) }

  lemma ServesNumbered(r: Root)
    requires Serves(r.d, r.list, r.next, r.log, 0)
    ensures |r.log| + 1 < U64
  {
  }

  lemma ProperPrefix(batches: seq<Batch>, k: nat)
    requires Proper(batches) && k <= |batches|
    ensures Proper(batches[..k])
  {
    hide History, Follow;
    forall m | 0 <= m < k
      ensures var log := History(batches[..k][..m]).log;
              Follow(batches[..k][m].events, |log|) && |log| + |batches[..k][m].events| + 1 < U64
    {
      assert batches[..k][..m] == batches[..m];
    }
  }

  // --- the cost of a read ----------------------------------------------------

  ghost predicate Full(pages: seq<Meta>, k: nat) { forall j :: 0 <= j < |pages| ==> |pages[j].page| == k }

  lemma {:induction false} SealTailFull(open: seq<Entry>, tail: nat, k: nat, below: nat)
    requires k > 0
    ensures Full(SealTail(open, tail, k, below).0, k)
    decreases |open|
  {
    hide AcceptRange;
    if |open| > k && open[k].key <= below {
      SealTailFull(open[k..], open[k].key, k, below);
      var first, more := MetaOf(open[..k], open[0].key), SealTail(open[k..], open[k].key, k, below).0;
      assert SealTail(open, tail, k, below).0 == [first] + more && |first.page| == k;
    }
  }

  // With one bound throughout, every sealed page of a history is full.
  lemma {:induction false} HistoryFull(batches: seq<Batch>, k: nat)
    requires Proper(batches) && forall n :: 0 <= n < |batches| ==> AtLeastOne(batches[n].maxEntries) == k
    ensures Full(History(batches).d.pages, k)
  {
    hide Publish, Proper, AtLeastOne;
    if batches != [] {
      var n := |batches| - 1;
      ProperPrefix(batches, n);
      HistoryFull(batches[..n], k);
      HistoryServes(batches[..n]);
      var r := History(batches[..n]);
      ProperAt(batches, n);
      PublishFull(r.d, r.list, r.next, r.log, batches[n], k);
    }
  }

  lemma ProperAt(batches: seq<Batch>, n: nat)
    requires Proper(batches) && n < |batches|
    ensures Follow(batches[n].events, |History(batches[..n]).log|)
  {
    hide History, Follow;
  }

  // Two lists over the same pages that hold the same, the first with no page attached.
  ghost predicate SameRoot(d0: Directory, list0: seq<Entry>, d: Directory, list: seq<Entry>) {
    && Valid(d0, list0) && (forall j :: 0 <= j < |d0.pages| ==> !IsLoaded(d0, j))
    && Valid(d, list) && d.pages == d0.pages && d.tailFrom == d0.tailFrom && Whole(d, list) == Whole(d0, list0)
  }

  // An attached page has exactly its own entries in memory.
  lemma PartIsPage(d0: Directory, list0: seq<Entry>, d: Directory, list: seq<Entry>, i: nat)
    requires SameRoot(d0, list0, d, list) && i < |d.pages| && IsLoaded(d, i)
    ensures Sort(Part(d, list, Some(i)), ByKey) == d.pages[i].page
  {
    hide Sort, Part, PageFor, Held, StrictlySorted, Placed, DistinctKeys, Chain, SameRoot;
    var part, page := Part(d, list, Some(i)), d.pages[i].page;
    assert Chain(d.pages, 0, d.tailFrom) && DistinctKeys(list) by { RootParts(d0, list0, d, list); }
    PartDistinct(d, list, Some(i));
    SortStrict(part);
    PageStrict(d, i);
    forall x ensures x in part <==> x in page { SameEntries(d0, list0, d, list, i, x); }
    StrictSame(Sort(part, ByKey), page);
  }

  lemma RootParts(d0: Directory, list0: seq<Entry>, d: Directory, list: seq<Entry>)
    requires SameRoot(d0, list0, d, list)
    ensures Chain(d.pages, 0, d.tailFrom) && DistinctKeys(list)
  {
  }

  lemma PageStrict(d: Directory, i: nat)
    requires Chain(d.pages, 0, d.tailFrom) && i < |d.pages|
    ensures StrictlySorted(d.pages[i].page)
  {
    assert Linked(d.pages, i, 0, d.tailFrom);
  }

  lemma SameEntries(d0: Directory, list0: seq<Entry>, d: Directory, list: seq<Entry>, i: nat, x: Entry)
    requires SameRoot(d0, list0, d, list) && i < |d.pages| && IsLoaded(d, i)
    ensures x in Part(d, list, Some(i)) <==> x in d.pages[i].page
  {
    hide Part, Held, Contents, DistinctKeys, Chain, PageFor;
    UnattachedWhole(d0, list0);
    SamePlaces(d0, d, x.key);
    OpenOnly(d0, list0, x);
    if x in list && PageFor(d, x.key) == Some(i) {
      assert x in multiset(list) && x in Whole(d, list);
      assert x in Contents(d.pages);
      ContentsPage(d.pages, x);
      var j :| 0 <= j < |d.pages| && x in d.pages[j].page;
      InPage(d, j, x);
    }
    if x in d.pages[i].page {
      InPage(d, i, x);
      ContentsMember(d.pages, i, x);
      assert x in Whole(d, list);
      if x !in list {
        HeldMember(d.pages, Flags(d, |d.pages|), false, x);
        var j :| 0 <= j < |d.pages| && !IsLoaded(d, j) && x in d.pages[j].page;
        InPage(d, j, x);
      }
    }
  }

  // With no page attached, what is in memory is open.
  lemma OpenOnly(d: Directory, list: seq<Entry>, x: Entry)
    requires Valid(d, list) && forall j :: 0 <= j < |d.pages| ==> !IsLoaded(d, j)
    ensures x in list ==> PageFor(d, x.key).None?
  {
    hide Chain, DistinctKeys, PageFor;
    assert x in list ==> Placed(d, x);
  }

  lemma SamePlaces(d0: Directory, d: Directory, key: nat)
    requires d.pages == d0.pages && d.tailFrom == d0.tailFrom
    ensures PageFor(d, key) == PageFor(d0, key)
  {
  }

  lemma {:induction false} PartOpen(d: Directory, list: seq<Entry>, es: seq<Entry>, i: nat)
    requires forall e :: e in es ==> PageFor(d, e.key).None?
    ensures Part(d, list + es, Some(i)) == Part(d, list, Some(i))
  {
    hide PageFor, Part;
    if es == [] {
      assert list + es == list;
    } else {
      var n := |es| - 1;
      PartOpen(d, list, es[..n], i);
      assert list + es == list + es[..n] + [es[n]] && es[n] in es;
      PartStep(d, list + es[..n], es[n], Some(i));
    }
  }

  // A page of at most k entries is one chunk, and that is the page as described.
  lemma OneChunk(m: Meta, hi: nat, k: nat)
    requires Described(m, hi) && |m.page| <= k && k > 0
    ensures Chunks(m.page, m.firstKey, k) == [m]
  {
    hide AcceptRange, StrictlySorted;
    assert m.page[..|m.page|] == m.page && m.page[|m.page|..] == [];
  }

  // Sealing with the bound the pages were made with leaves every page as it is, attached or
  // not.
  lemma {:induction false} RebuildUnchanged(d0: Directory, list0: seq<Entry>, d: Directory, list: seq<Entry>,
                                            es: seq<Entry>, n: nat, k: nat)
    requires SameRoot(d0, list0, d, list) && n <= |d.pages| && k > 0 && Full(d.pages, k)
    requires forall e :: e in es ==> PageFor(d, e.key).None?
    ensures Rebuild(d, list + es, n, k).pages == d.pages[..n]
  {
    hide Chunks, Sort, Part, Changed, IsLoaded, SameRoot, PageFor, Trues, Rebuild;
    if n == 0 {
      RebuildZero(d, list + es, k);
    } else {
      RebuildUnchanged(d0, list0, d, list, es, n - 1, k);
      RebuildStep(d, list + es, n, k);
      if IsLoaded(d, n - 1) {
        PartOpen(d, list, es, n - 1);
        PartIsPage(d0, list0, d, list, n - 1);
        RootParts(d0, list0, d, list);
        assert Linked(d.pages, n - 1, 0, d.tailFrom);
        OneChunk(d.pages[n - 1], Next(d.pages, n - 1, d.tailFrom), k);
      }
    }
  }

  lemma PublishFull(d0: Directory, list0: seq<Entry>, next: nat, log: seq<Entry>, b: Batch, k: nat)
    requires Serves(d0, list0, next, log, 0) && AtLeastOne(b.maxEntries) == k && Follow(b.events, |log|)
    requires Full(d0.pages, k)
    ensures var (d, list) := LoadAll(d0, list0, b.loads);
            var r := Publish(d, list, b.events, b.below, b.maxEntries, b.maxPages);
            r.Ok? ==> Full(r.value.0.pages, k)
  {
    hide Rebuild, SealTail, Part, Sort, Valid, Whole, Numbered, StrictlySorted, IsLoaded, Stray, LoadAll, PageFor;
    ServesHolds(d0, list0, next, log, 0);
    LoadAllHolds(d0, list0, next, log, 0, b.loads);
    var (d, list) := LoadAll(d0, list0, b.loads);
    var all := list + b.events;
    EventsOpen(d, b.events, |log|);
    RebuildUnchanged(d0, list0, d, list, b.events, |d.pages|, k);
    assert d.pages[..|d.pages|] == d.pages;
    var open := Sort(Part(d, all, None), ByKey);
    SealTailFull(open, d.tailFrom, k, b.below);
    var s := Seal(d, all, false, b.below, b.maxEntries, b.maxPages);
    if s.Ok? { assert s.value.0.pages == d.pages + SealTail(open, d.tailFrom, k, b.below).0; }
  }

  lemma EventsOpen(d: Directory, es: seq<Entry>, n: nat)
    requires Follow(es, n) && d.tailFrom <= n + 1
    ensures forall e :: e in es ==> PageFor(d, e.key).None?
  {
    forall e | e in es ensures PageFor(d, e.key).None? { var i :| 0 <= i < |es| && es[i] == e; }
  }

  // So a read attaches at most ceil(limit / k) + 1 pages, whatever the history's length.
  lemma ReadsFewPages(batches: seq<Batch>, k: nat, after: nat, limit: nat)
    requires Proper(batches) && forall n :: 0 <= n < |batches| ==> AtLeastOne(batches[n].maxEntries) == k
    requires k > 0
    ensures var r := History(batches);
            var g := Gather(r.d, r.list, FirstPage(r.d, after), after, limit, None);
            g.Ok? && (g.value.1 > 1 ==> (g.value.1 - 2) * k < limit)
  {
    hide History, Gather, FirstPage, Proper, AtLeastOne, Valid;
    HistoryFull(batches, k);
    HistoryServes(batches);
    var r := History(batches);
    LoadsBounded(r.d, r.list, after, limit, k);
  }
}
