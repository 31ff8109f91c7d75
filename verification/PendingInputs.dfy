/**
 An agent's inputs from acceptance to result. Results are sealed below the pending floor,
 the lowest number an input that still waits can have. The floor never falls, so results are
 never appended into a sealed page, and every number below the open results page is settled.
 */
module PendingInputs {
  import opened IndexLife
  import opened IndexPages
  import opened IndexSeal
  import opened Numbers
  import opened Sorting
  import opened Wire
  import opened Wrappers

  // The two lists, the input of the active turn, and the next number to give out.
  datatype Agent = Agent(inbox: Life, results: Life, active: Option<nat>, next: nat)

  datatype Act =
    | Accept(body: Bytes)
    | Begin
    | Retry(body: Bytes)
    | Settle(key: nat, body: Bytes)
    | LoadInbox(page: nat)
    | LoadResults(page: nat)
    | SealIndex(maxEntries: nat, maxPages: nat, reread: bool)

  const CREATED := Agent(Life(Directory([], 0, []), [], 1), Life(Directory([], 0, []), [], 1), None, 1)

  // --- the pending floor -----------------------------------------------------

  function LowestKey(list: seq<Entry>, start: nat): (m: nat)
    ensures m <= start && (forall e :: e in list ==> m <= e.key)
    ensures m == start || exists e :: e in list && e.key == m
  {
    if list == [] then start
    else
      var n := |list| - 1;
      assert list == list[..n] + [list[n]];
      var m := LowestKey(list[..n], start);
      Min(m, list[n].key)
  }

  // The least of the active input, the first key of the first sealed page and the inputs in
  // memory; the next number, which is above all of them, when nothing waits.
  function Floor(a: Agent): nat {
    var turn := if a.active.Some? then a.active.value else a.next;
    var page := if a.inbox.d.pages != [] then a.inbox.d.pages[0].firstKey else a.next;
    LowestKey(a.inbox.list, Min(turn, page))
  }

  // --- the steps -------------------------------------------------------------

  function Find(list: seq<Entry>, key: nat): (r: Option<nat>)
    ensures r.Some? ==> r.value < |list| && list[r.value].key == key
    ensures r.None? ==> forall e :: e in list ==> e.key != key
  {
    if list == [] then None
    else
      var n := |list| - 1;
      assert list == list[..n] + [list[n]];
      if list[n].key == key then Some(n) else Find(list[..n], key)
  }

  // Each step with the lists as it leaves them. An input that is not in memory is refused,
  // and so is a seal that does not fit; then nothing changes.
  function Acted(a: Agent, act: Act): Agent {
    match act
    case Accept(body) =>
      a.(inbox := Moved(a.inbox, Append(Entry(a.next, None, body), a.next + 1)), next := a.next + 1)
    case Begin =>
      if a.active.None? && a.inbox.list != [] then a.(active := Some(a.inbox.list[0].key)) else a
    case Retry(body) =>
      if a.active.None? then a else
      var at := Find(a.inbox.list, a.active.value);
      if at.None? then a
      else a.(inbox := Moved(a.inbox, Change(at.value, a.inbox.list[at.value].(body := body))), active := None)
    case Settle(key, body) =>
      if Find(a.inbox.list, key).None? then a
      else a.(inbox := Moved(a.inbox, Remove({key})),
              results := Moved(a.results, Append(Entry(key, None, body), a.results.floor)),
              active := if a.active == Some(key) then None else a.active)
    case LoadInbox(page) => a.(inbox := Moved(a.inbox, Load(page)))
    case LoadResults(page) => a.(results := Moved(a.results, Load(page)))
    case SealIndex(maxEntries, maxPages, reread) =>
      var below := Floor(a);
      if Seal(a.inbox.d, a.inbox.list, true, U64 - 1, maxEntries, maxPages).Err? then a
      else if Seal(a.results.d, a.results.list, false, below, maxEntries, maxPages).Err? then a
      else a.(inbox := Moved(a.inbox, Publish(true, U64 - 1, maxEntries, maxPages, reread)),
              results := Moved(a.results, Publish(false, below, maxEntries, maxPages, reread)))
  }

  // The floor recorded for the results list follows the pending floor.
  function Stepped(a: Agent, act: Act): Agent {
    var b := Acted(a, act);
    b.(results := b.results.(floor := Floor(b)))
  }

  function After(acts: seq<Act>): Agent {
    if acts == [] then CREATED else Stepped(After(acts[..|acts| - 1]), acts[|acts| - 1])
  }

  // --- what every step keeps -------------------------------------------------

  ghost function Keys(m: multiset<Entry>): set<nat> { set e | e in m :: e.key }

  // The numbers given out so far.
  function Given(next: nat): (r: set<nat>)
    ensures forall k :: k in r <==> 0 < k < next
  {
    if next <= 1 then {} else Given(next - 1) + {next - 1}
  }

  ghost function Waiting(a: Agent): set<nat> { Keys(Whole(a.inbox.d, a.inbox.list)) }

  ghost function Settled(a: Agent): set<nat> { Keys(Whole(a.results.d, a.results.list)) }

  // Both lists are sound; every number given out waits or is settled, and not both.
  ghost predicate Inv(a: Agent) {
    && Sound(a.inbox) && a.inbox.floor == a.next && AllBelow(a.inbox.list, a.next)
    && Sound(a.results) && a.results.floor == Floor(a)
    && Waiting(a) + Settled(a) == Given(a.next) && Waiting(a) !! Settled(a)
    && (a.active.Some? ==> a.active.value < a.next) && a.next > 0
  }

  // The floor is at or below every input that waits, in memory or not.
  lemma FloorBelow(a: Agent, key: nat)
    requires Sound(a.inbox) && key in Waiting(a)
    ensures Floor(a) <= key
  {
    hide Valid, Held;
    var e :| e in Whole(a.inbox.d, a.inbox.list) && e.key == key;
    if e in a.inbox.list {
    } else {
      assert e in Held(a.inbox.d.pages, Flags(a.inbox.d, |a.inbox.d.pages|), false);
      PageFloor(a.inbox.d, a.inbox.list, e);
    }
  }

  lemma PageFloor(d: Directory, list: seq<Entry>, e: Entry)
    requires Valid(d, list) && e in Held(d.pages, Flags(d, |d.pages|), false)
    ensures d.pages != [] && d.pages[0].firstKey <= e.key
  {
    hide Held, Chain, Placed, DistinctKeys;
    HeldMember(d.pages, Flags(d, |d.pages|), false, e);
    var j :| 0 <= j < |d.pages| && e in d.pages[j].page;
    FirstBelow(d, j, e);
  }

  lemma FirstBelow(d: Directory, j: nat, e: Entry)
    requires Chain(d.pages, 0, d.tailFrom) && j < |d.pages| && e in d.pages[j].page
    ensures d.pages[0].firstKey <= e.key
  {
    hide Chain, PageFor;
    InPage(d, j, e);
    if j > 0 { ChainAscends(d.pages, 0, d.tailFrom, 0, j); }
  }

  // Nothing that decides the floor is below f.
  lemma FloorFrom(a: Agent, f: nat)
    requires f <= a.next && (a.active.Some? ==> f <= a.active.value)
    requires a.inbox.d.pages != [] ==> f <= a.inbox.d.pages[0].firstKey
    requires forall e :: e in a.inbox.list ==> f <= e.key
    ensures f <= Floor(a) == Floor(a.(results := a.results.(floor := Floor(a))))
  {
  }

  lemma FloorParts(a: Agent)
    requires Inv(a)
    ensures var f := Floor(a);
            && f <= a.next && (a.active.Some? ==> f <= a.active.value)
            && (a.inbox.d.pages != [] ==> f <= a.inbox.d.pages[0].firstKey)
            && forall e :: e in a.inbox.list ==> f <= e.key
  {
    hide Sound;
  }

  lemma KeysPlus(m: multiset<Entry>, e: Entry)
    ensures Keys(m + multiset{e}) == Keys(m) + {e.key}
  {
    assert forall x :: x in m + multiset{e} <==> x in m || x == e;
  }

  lemma InList(d: Directory, list: seq<Entry>, e: Entry)
    requires e in list
    ensures e.key in Keys(Whole(d, list))
  {
    hide Held;
    assert e in multiset(list);
    assert e in Whole(d, list);
  }

  // --- one step --------------------------------------------------------------

  // With the floor of the results list brought up to date, all is kept, and the floor did
  // not fall.
  ghost predicate Progress(a: Agent, b: Agent) {
    Inv(b.(results := b.results.(floor := Floor(b)))) && Floor(a) <= Floor(b)
  }

  lemma AcceptStep(a: Agent, body: Bytes)
    requires Inv(a)
    ensures Progress(a, Acted(a, Accept(body)))
  {
    hide Floor, Valid, Whole, Keys;
    var e := Entry(a.next, None, body);
    var b := Acted(a, Accept(body));
    FloorParts(a);
    AppendKeeps(a.inbox, e, a.next + 1);
    KeysPlus(Whole(a.inbox.d, a.inbox.list), e);
    FloorFrom(b, Floor(a));
    assert Given(a.next + 1) == Given(a.next) + {a.next};
  }

  lemma BeginStep(a: Agent)
    requires Inv(a)
    ensures Progress(a, Acted(a, Begin))
  {
    hide Floor, Valid, Whole, Keys;
    FloorParts(a);
    FloorFrom(Acted(a, Begin), Floor(a));
  }

  lemma KeysSwapped(m: multiset<Entry>, e: Entry, e': Entry)
    requires e in m && e.key == e'.key
    ensures Keys(m - multiset{e} + multiset{e'}) == Keys(m)
  {
    var n := m - multiset{e} + multiset{e'};
    assert e' in n;
    forall x | x in m ensures x.key in Keys(n) { if x != e { assert x in n; } }
    forall x | x in n ensures x.key in Keys(m) { assert x in m || x == e'; }
  }

  lemma RetryStep(a: Agent, body: Bytes)
    requires Inv(a)
    ensures Progress(a, Acted(a, Retry(body)))
  {
    hide Floor, Valid, Whole, Keys;
    var b := Acted(a, Retry(body));
    FloorParts(a);
    if a.active.Some? && Find(a.inbox.list, a.active.value).Some? {
      var at := Find(a.inbox.list, a.active.value).value;
      var e := a.inbox.list[at].(body := body);
      ChangeKeeps(a.inbox, at, e);
      InWholeList(a.inbox.d, a.inbox.list, at);
      KeysSwapped(Whole(a.inbox.d, a.inbox.list), a.inbox.list[at], e);
      assert a.inbox.list[at] in a.inbox.list;
      assert forall x :: x in a.inbox.list[at := e] ==> x in a.inbox.list || x == e;
    }
    FloorFrom(b, Floor(a));
  }

  lemma InWholeList(d: Directory, list: seq<Entry>, at: nat)
    requires at < |list|
    ensures list[at] in Whole(d, list)
  {
    hide Held;
    assert list[at] in multiset(list);
  }

  lemma {:induction false} KeptMembers(list: seq<Entry>, keys: set<nat>, e: Entry)
    ensures e in Kept(list, keys) <==> e in list && e.key !in keys
  {
    if list != [] {
      var n := |list| - 1;
      KeptMembers(list[..n], keys, e);
      assert list == list[..n] + [list[n]];
    }
  }

  // A key in memory is in no page that is not.
  lemma NotHeld(d: Directory, list: seq<Entry>, e: Entry, f: Entry)
    requires Valid(d, list) && e in list && f in Held(d.pages, Flags(d, |d.pages|), false)
    ensures e.key != f.key
  {
    hide Held, Chain, PageFor, DistinctKeys;
    HeldMember(d.pages, Flags(d, |d.pages|), false, f);
    var j :| 0 <= j < |d.pages| && !Flags(d, |d.pages|)[j] && f in d.pages[j].page;
    InPage(d, j, f);
    assert Placed(d, e);
  }

  // Taking an input out of memory takes its number out of those that wait.
  lemma TakenOut(d: Directory, list: seq<Entry>, at: nat)
    requires Valid(d, list) && at < |list|
    ensures var key := list[at].key; Keys(Whole(d, Kept(list, {key}))) == Keys(Whole(d, list)) - {key}
  {
    hide Held, Valid, Kept;
    var key := list[at].key;
    var kept := Kept(list, {key});
    forall x ensures x in Whole(d, kept) <==> x in Whole(d, list) && x.key != key {
      KeptMembers(list, {key}, x);
      assert x in multiset(kept) <==> x in kept;
      assert x in multiset(list) <==> x in list;
      if x in Held(d.pages, Flags(d, |d.pages|), false) { NotHeld(d, list, list[at], x); }
    }
  }

  // What happens to the results list is what its life allows: a result of a waiting input,
  // and a seal below the pending floor.
  lemma ResultsAllowed(a: Agent, at: nat, body: Bytes, maxEntries: nat, maxPages: nat, reread: bool)
    requires Inv(a)
    ensures at < |a.inbox.list| ==> Allowed(a.results, Append(Entry(a.inbox.list[at].key, None, body), a.results.floor))
    ensures Allowed(a.results, Publish(false, Floor(a), maxEntries, maxPages, reread))
  {
    hide Floor, Valid, Whole, Keys;
    FloorParts(a);
    if at < |a.inbox.list| {
      var e := a.inbox.list[at];
      assert e in a.inbox.list;
      InList(a.inbox.d, a.inbox.list, e);
      forall f | f in a.results.list ensures f.key != e.key { InList(a.results.d, a.results.list, f); }
    }
  }

  lemma SettleStep(a: Agent, key: nat, body: Bytes)
    requires Inv(a)
    ensures Progress(a, Acted(a, Settle(key, body)))
  {
    hide Floor, Valid, Whole, Keys, Kept;
    var b := Acted(a, Settle(key, body));
    FloorParts(a);
    if Find(a.inbox.list, key).Some? {
      var at := Find(a.inbox.list, key).value;
      var e := Entry(key, None, body);
      assert a.inbox.list[at] in a.inbox.list;
      InList(a.inbox.d, a.inbox.list, a.inbox.list[at]);
      RemoveKeeps(a.inbox, {key});
      TakenOut(a.inbox.d, a.inbox.list, at);
      ResultsAllowed(a, at, body, 0, 0, false);
      AppendKeeps(a.results, e, a.results.floor);
      KeysPlus(Whole(a.results.d, a.results.list), e);
    }
    FloorFrom(b, Floor(a));
  }

  lemma LoadInboxStep(a: Agent, page: nat)
    requires Inv(a)
    ensures Progress(a, Acted(a, LoadInbox(page)))
  {
    hide Floor, Valid, Whole, Keys, Attach;
    var b := Acted(a, LoadInbox(page));
    FloorParts(a);
    if page < |a.inbox.d.pages| {
      MoveKeeps(a.inbox, Load(page));
      LoadedBelow(a.inbox, page);
      AttachKeeps(a.inbox.d, a.inbox.list, page);
      forall e | e in b.inbox.list ensures Floor(a) <= e.key {
        assert e in multiset(b.inbox.list);
        if e !in multiset(a.inbox.list) { PageAboveFirst(a.inbox, page, e); }
      }
    }
    FloorFrom(b, Floor(a));
  }

  lemma PageAboveFirst(s: Life, page: nat, e: Entry)
    requires Sound(s) && page < |s.d.pages| && e in s.d.pages[page].page
    ensures s.d.pages[0].firstKey <= e.key
  {
    FirstBelow(s.d, page, e);
  }

  lemma LoadResultsStep(a: Agent, page: nat)
    requires Inv(a)
    ensures Progress(a, Acted(a, LoadResults(page)))
  {
    hide Floor, Valid, Whole, Keys, Attach;
    FloorParts(a);
    MoveKeeps(a.results, Load(page));
    FloorFrom(Acted(a, LoadResults(page)), Floor(a));
  }

  // --- sealing ---------------------------------------------------------------

  ghost predicate StartAbove(pages: seq<Meta>, f: nat) { forall j :: 0 <= j < |pages| ==> f <= pages[j].firstKey }

  ghost predicate KeysAbove(list: seq<Entry>, f: nat) { forall e :: e in list ==> f <= e.key }

  lemma {:induction false} ChunksAbove(entries: seq<Entry>, firstKey: nat, k: nat, f: nat)
    requires k > 0 && f <= firstKey && KeysAbove(entries, f)
    ensures StartAbove(Chunks(entries, firstKey, k), f)
    decreases |entries|
  {
    hide AcceptRange;
    if entries != [] {
      var n := if |entries| < k then |entries| else k;
      assert entries[n - 1] in entries;
      ChunksAbove(entries[n..], entries[n - 1].key + 1, k, f);
    }
  }

  lemma {:induction false} TailAbove(open: seq<Entry>, tail: nat, k: nat, below: nat, f: nat)
    requires k > 0 && KeysAbove(open, f)
    ensures StartAbove(SealTail(open, tail, k, below).0, f)
    decreases |open|
  {
    hide AcceptRange;
    if |open| > k && open[k].key <= below {
      assert open[0] in open;
      TailAbove(open[k..], open[k].key, k, below, f);
    }
  }

  lemma {:induction false} RebuildAbove(d: Directory, list: seq<Entry>, n: nat, k: nat, f: nat)
    requires n <= |d.pages| && k > 0 && StartAbove(d.pages, f) && KeysAbove(list, f)
    ensures StartAbove(Rebuild(d, list, n, k).pages, f)
  {
    hide Chunks, Sort, Part, Changed, IsLoaded, Trues;
    if n > 0 {
      RebuildAbove(d, list, n - 1, k, f);
      var part := Part(d, list, Some(n - 1));
      SortMembers(part);
      ChunksAbove(Sort(part, ByKey), d.pages[n - 1].firstKey, k, f);
    }
  }

  // Sealing starts no page below everything the list had.
  lemma SealAbove(d: Directory, list: seq<Entry>, keepTail: bool, below: nat, maxEntries: nat, maxPages: nat, f: nat)
    requires StartAbove(d.pages, f) && KeysAbove(list, f) && Seal(d, list, keepTail, below, maxEntries, maxPages).Ok?
    ensures StartAbove(Seal(d, list, keepTail, below, maxEntries, maxPages).value.0.pages, f)
  {
    hide Rebuild, SealTail, Sort, Part, Stray, Trues, Objects;
    var s, k := Source(d, list, keepTail), AtLeastOne(maxEntries);
    var open := if Reopens(d, list, keepTail) then Part(d, list, Some(|s.pages|)) else Part(d, list, None);
    RebuildAbove(d, list, |s.pages|, k, f);
    SortMembers(open);
    TailAbove(Sort(open, ByKey), s.tailFrom, k, below, f);
  }

  lemma StartsAbove(s: Life, f: nat)
    requires Sound(s) && (s.d.pages != [] ==> f <= s.d.pages[0].firstKey)
    ensures StartAbove(s.d.pages, f)
  {
    hide Described;
    forall j | 0 <= j < |s.d.pages| ensures f <= s.d.pages[j].firstKey {
      if j > 0 { ChainAscends(s.d.pages, 0, s.d.tailFrom, 0, j); }
    }
  }

  lemma SealStep(a: Agent, maxEntries: nat, maxPages: nat, reread: bool)
    requires Inv(a)
    ensures Progress(a, Acted(a, SealIndex(maxEntries, maxPages, reread)))
  {
    hide Floor, Valid, Whole, Keys, Seal, Part;
    var act := SealIndex(maxEntries, maxPages, reread);
    var b, f := Acted(a, act), Floor(a);
    FloorParts(a);
    if b != a {
      var inMove := Publish(true, U64 - 1, maxEntries, maxPages, reread);
      var outMove := Publish(false, f, maxEntries, maxPages, reread);
      PublishKeeps(a.inbox, inMove);
      ResultsAllowed(a, 0, [], maxEntries, maxPages, reread);
      PublishKeeps(a.results, outMove);
      StartsAbove(a.inbox, f);
      SealAbove(a.inbox.d, a.inbox.list, true, U64 - 1, maxEntries, maxPages, f);
    }
    FloorFrom(b, f);
  }

  // --- every run -------------------------------------------------------------

  lemma StepKeeps(a: Agent, act: Act)
    requires Inv(a)
    ensures Inv(Stepped(a, act)) && Floor(a) <= Floor(Stepped(a, act))
  {
    hide Inv, Acted;
    match act {
      case Accept(body) => AcceptStep(a, body);
      case Begin => BeginStep(a);
      case Retry(body) => RetryStep(a, body);
      case Settle(key, body) => SettleStep(a, key, body);
      case LoadInbox(page) => LoadInboxStep(a, page);
      case LoadResults(page) => LoadResultsStep(a, page);
      case SealIndex(maxEntries, maxPages, reread) => SealStep(a, maxEntries, maxPages, reread);
    }
  }

  // Over every run both lists stay sound and every number given out waits or is settled,
  // exactly one of the two; and every number below the open results page is settled.
  lemma {:induction false} RunKeeps(acts: seq<Act>)
    ensures var a := After(acts);
            && Inv(a)
            && forall k :: 0 < k < a.results.d.tailFrom ==> k in Settled(a)
  {
    hide Inv, Stepped;
    if acts == [] {
      CreatedInv();
    } else {
      var n := |acts| - 1;
      RunKeeps(acts[..n]);
      StepKeeps(After(acts[..n]), acts[n]);
    }
    SealedSettled(After(acts));
  }

  lemma CreatedInv()
    ensures Inv(CREATED)
  {
  }

  lemma SealedSettled(a: Agent)
    requires Inv(a)
    ensures forall k :: 0 < k < a.results.d.tailFrom ==> k in Settled(a)
  {
    hide Valid, Whole, Keys;
    FloorParts(a);
    forall k | 0 < k < a.results.d.tailFrom ensures k in Settled(a) {
      assert k in Given(a.next);
      if k in Waiting(a) { FloorBelow(a, k); }
    }
  }

  // The floor never falls, however far apart two points of a run are.
  lemma {:induction false} FloorNeverFalls(acts: seq<Act>, n: nat)
    requires n <= |acts|
    ensures Floor(After(acts[..n])) <= Floor(After(acts))
    decreases |acts| - n
  {
    hide Inv, Stepped, Floor;
    if n == |acts| {
      assert acts[..n] == acts;
    } else {
      var m := |acts| - 1;
      FloorNeverFalls(acts[..m], n);
      assert acts[..m][..n] == acts[..n];
      RunKeeps(acts[..m]);
      StepKeeps(After(acts[..m]), acts[m]);
    }
  }
}
