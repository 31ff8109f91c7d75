/**
 The life of any of an agent's lists: entries are appended and removed, pages are loaded,
 the list is sealed, published and read again. As long as nothing is appended below the
 lowest key the list was sealed for, every entry in memory is at or above the first key of
 the page it is looked up in, and nothing is lost.
 */
module IndexLife {
  import opened IndexPages
  import opened IndexSeal
  import opened Numbers
  import opened Sorting
  import opened Wrappers

  // A list in memory, and the lowest key that may still be appended to it: the next number
  // for inputs, receipts, events and timers, the lowest pending input for results.
  datatype Life = Life(d: Directory, list: seq<Entry>, floor: nat)

  datatype Move =
    | Append(e: Entry, next: nat)
    | Remove(keys: set<nat>)
    | Change(at: nat, e: Entry)
    | Raise(floor: nat)
    | Load(page: nat)
    | Publish(keepTail: bool, below: nat, maxEntries: nat, maxPages: nat, reread: bool)

  const NEW := Life(Directory([], 0, []), [], 0)

  function Kept(list: seq<Entry>, keys: set<nat>): (r: seq<Entry>)
    ensures forall e :: e in r ==> e in list
  {
    if list == [] then []
    else
      var n := |list| - 1;
      assert list == list[..n] + [list[n]];
      Kept(list[..n], keys) + if list[n].key in keys then [] else [list[n]]
  }

  // A page that is refused and a seal that does not fit leave the list as it was.
  function Moved(s: Life, m: Move): Life {
    match m
    case Append(e, next) => s.(list := s.list + [e], floor := next)
    case Remove(keys) => s.(list := Kept(s.list, keys))
    case Change(at, e) => if at < |s.list| then s.(list := s.list[at := e]) else s
    case Raise(floor) => s.(floor := floor)
    case Load(page) =>
      if page >= |s.d.pages| then s else
      var r := Attach(s.d, s.list, page, s.d.pages[page].page);
      if r.Ok? then s.(d := r.value.0, list := r.value.1) else s
    case Publish(keepTail, below, maxEntries, maxPages, reread) =>
      match Seal(s.d, s.list, keepTail, below, maxEntries, maxPages)
      case Err(_) => s
      case Ok((out, _)) =>
        if reread then Life(Reread(out, s.list).0, Reread(out, s.list).1, s.floor) else s.(d := out)
  }

  ghost predicate AllBelow(list: seq<Entry>, floor: nat) { forall e :: e in list ==> e.key < floor }

  ghost predicate NewKey(list: seq<Entry>, key: nat) { forall e :: e in list ==> e.key != key }

  // Appends are at or above the floor, which never falls; a change keeps its entry's key; a
  // seal goes no further than the floor, or every key is below it.
  ghost predicate Allowed(s: Life, m: Move) {
    match m
    case Append(e, next) => s.floor <= e.key && s.floor <= next && NewKey(s.list, e.key)
    case Remove(_) => true
    case Change(at, e) => at < |s.list| ==> e.key == s.list[at].key
    case Raise(floor) => s.floor <= floor
    case Load(_) => true
    case Publish(_, below, _, _, _) => below <= s.floor || AllBelow(s.list, s.floor)
  }

  function Run(moves: seq<Move>): Life {
    if moves == [] then NEW else Moved(Run(moves[..|moves| - 1]), moves[|moves| - 1])
  }

  ghost predicate Proper(moves: seq<Move>) {
    forall n :: 0 <= n < |moves| ==> Allowed(Run(moves[..n]), moves[n])
  }

  // What the list should hold: all that was appended, with the removals and changes made.
  function Owed(moves: seq<Move>): multiset<Entry> {
    if moves == [] then multiset{}
    else
      var n := |moves| - 1;
      var before, s := Owed(moves[..n]), Run(moves[..n]);
      match moves[n]
      case Append(e, _) => before + multiset{e}
      case Remove(keys) => before - multiset(s.list) + multiset(Kept(s.list, keys))
      case Change(at, e) => if at < |s.list| then before - multiset{s.list[at]} + multiset{e} else before
      case _ => before
  }

  ghost predicate Sound(s: Life) { Valid(s.d, s.list) && s.d.tailFrom <= s.floor }

  lemma AppendKeeps(s: Life, e: Entry, next: nat)
    requires Sound(s) && Allowed(s, Append(e, next))
    ensures Sound(Moved(s, Append(e, next)))
    ensures Whole(s.d, s.list + [e]) == Whole(s.d, s.list) + multiset{e}
  {
    hide Chain, Held, StartedBy, IsLoaded;
    var all := s.list + [e];
    assert forall i :: 0 <= i < |s.list| ==> s.list[i] in s.list;
    forall x | x in all ensures Placed(s.d, x) { if x in s.list { assert Placed(s.d, x); } }
  }

  lemma {:induction false} KeptDistinct(list: seq<Entry>, keys: set<nat>)
    requires DistinctKeys(list)
    ensures DistinctKeys(Kept(list, keys))
  {
    if list != [] {
      var n := |list| - 1;
      KeptDistinct(list[..n], keys);
      var before := Kept(list[..n], keys);
      forall i | 0 <= i < |before| ensures before[i].key != list[n].key { assert before[i] in list[..n]; }
    }
  }

  lemma RemoveKeeps(s: Life, keys: set<nat>)
    requires Sound(s)
    ensures Sound(Moved(s, Remove(keys)))
    ensures Whole(s.d, Kept(s.list, keys)) == Whole(s.d, s.list) - multiset(s.list) + multiset(Kept(s.list, keys))
  {
    hide Chain, Held, StartedBy, IsLoaded, Kept, Placed;
    KeptDistinct(s.list, keys);
    var kept := Kept(s.list, keys);
    forall e | e in kept ensures Placed(s.d, e) { assert e in s.list; }
  }

  lemma ChangeKeeps(s: Life, at: nat, e: Entry)
    requires Sound(s) && at < |s.list| && e.key == s.list[at].key
    ensures Sound(Moved(s, Change(at, e)))
    ensures Whole(s.d, s.list[at := e]) == Whole(s.d, s.list) - multiset{s.list[at]} + multiset{e}
  {
    hide Chain, Held, IsLoaded, PageFor;
    var list := s.list[at := e];
    forall x | x in list ensures Placed(s.d, x) {
      assert s.list[at] in s.list && Placed(s.d, s.list[at]);
      if x in s.list { assert Placed(s.d, x); }
    }
  }

  lemma PublishKeeps(s: Life, m: Move)
    requires Sound(s) && m.Publish? && Allowed(s, m)
    ensures var t := Moved(s, m); Sound(t) && Whole(t.d, t.list) == Whole(s.d, s.list)
  {
    hide Seal, Valid, Whole, Stored, Reread;
    SealKeeps(s.d, s.list, m.keepTail, m.below, m.maxEntries, m.maxPages);
    var r := Seal(s.d, s.list, m.keepTail, m.below, m.maxEntries, m.maxPages);
    if r.Ok? {
      if AllBelow(s.list, s.floor) { TailUnderFloor(s, m); }
      RereadKeeps(r.value.0, s.list);
      assert Reread(r.value.0, s.list).0.tailFrom == r.value.0.tailFrom by { RereadTail(r.value.0, s.list); }
    }
  }

  lemma RereadTail(d: Directory, list: seq<Entry>)
    ensures Reread(d, list).0.tailFrom == d.tailFrom
  {
  }

  // A seal opens its tail at a key of the list, or no later than it was.
  lemma TailUnderFloor(s: Life, m: Move)
    requires Sound(s) && m.Publish? && AllBelow(s.list, s.floor)
    requires Seal(s.d, s.list, m.keepTail, m.below, m.maxEntries, m.maxPages).Ok?
    ensures Seal(s.d, s.list, m.keepTail, m.below, m.maxEntries, m.maxPages).value.0.tailFrom <= s.floor
  {
    hide Rebuild, SealTail, Part, Sort, Chain, Placed, DistinctKeys, IsLoaded, Stray, Reopens;
    var src := Source(s.d, s.list, m.keepTail);
    SourceKeeps(s.d, s.list, m.keepTail);
    var back := Reopens(s.d, s.list, m.keepTail);
    var open := if back then Part(s.d, s.list, Some(|src.pages|)) else Part(s.d, s.list, None);
    SortMembers(open);
    TailWithin(Sort(open, ByKey), src.tailFrom, AtLeastOne(m.maxEntries), m.below, s.floor);
  }

  lemma MoveKeeps(s: Life, m: Move)
    requires Sound(s) && Allowed(s, m)
    ensures var t := Moved(s, m);
            && Sound(t)
            && Whole(t.d, t.list) ==
               match m {
                 case Append(e, _) => Whole(s.d, s.list) + multiset{e}
                 case Remove(keys) => Whole(s.d, s.list) - multiset(s.list) + multiset(Kept(s.list, keys))
                 case Change(at, e) =>
                   if at < |s.list| then Whole(s.d, s.list) - multiset{s.list[at]} + multiset{e} else Whole(s.d, s.list)
                 case _ => Whole(s.d, s.list)
               }
  {
    hide Valid, Whole, Seal, Attach, Kept, Reread;
    match m {
      case Append(e, next) => AppendKeeps(s, e, next);
      case Remove(keys) => RemoveKeeps(s, keys);
      case Change(at, e) => if at < |s.list| { ChangeKeeps(s, at, e); }
      case Raise(_) =>
      case Load(page) => if page < |s.d.pages| { AttachKeeps(s.d, s.list, page); }
      case Publish(_, _, _, _, _) => PublishKeeps(s, m);
    }
  }

  // Over every run of such moves the list is valid, so that every entry in memory is at or
  // above the first key of its page, and holds exactly what it should.
  lemma {:induction false} LifeKept(moves: seq<Move>)
    requires Proper(moves)
    ensures var s := Run(moves);
            && Sound(s) && Whole(s.d, s.list) == Owed(moves)
            && forall e :: e in s.list && PageFor(s.d, e.key).Some? ==>
                             s.d.pages[PageFor(s.d, e.key).value].firstKey <= e.key
  {
    hide Moved, Allowed, PageFor, Chain, DistinctKeys, Kept, Held;
    if moves == [] {
      NewSound();
    } else {
      var n := |moves| - 1;
      ProperPrefix(moves, n);
      LifeKept(moves[..n]);
      MoveKeeps(Run(moves[..n]), moves[n]);
    }
    var s := Run(moves);
    forall e | e in s.list && PageFor(s.d, e.key).Some?
      ensures s.d.pages[PageFor(s.d, e.key).value].firstKey <= e.key
    {
      assert Placed(s.d, e);
    }
  }

  lemma NewSound()
    ensures Sound(NEW) && Whole(NEW.d, NEW.list) == multiset{}
  {
  }

  lemma ProperPrefix(moves: seq<Move>, n: nat)
    requires Proper(moves) && n <= |moves|
    ensures Proper(moves[..n])
  {
    hide Run, Allowed;
    forall k | 0 <= k < n ensures Allowed(Run(moves[..n][..k]), moves[..n][k]) {
      assert moves[..n][..k] == moves[..k];
    }
  }

  // --- numbered lists --------------------------------------------------------

  // Inputs, receipts, events and timers take ever higher numbers. Nothing is asked of how
  // far such a list is sealed.
  ghost predicate Ascending(s: Life, m: Move) {
    match m
    case Append(e, next) => s.floor <= e.key < next
    case Change(at, e) => at < |s.list| ==> e.key == s.list[at].key
    case Raise(floor) => s.floor <= floor
    case _ => true
  }

  ghost predicate Numbered(moves: seq<Move>) {
    forall n :: 0 <= n < |moves| ==> Ascending(Run(moves[..n]), moves[n])
  }

  lemma AscendingAllowed(s: Life, m: Move)
    requires AllBelow(s.list, s.floor) && Ascending(s, m)
    ensures Allowed(s, m)
  {
  }

  lemma AscendingKeeps(s: Life, m: Move)
    requires Sound(s) && AllBelow(s.list, s.floor) && Ascending(s, m)
    ensures var t := Moved(s, m); AllBelow(t.list, t.floor)
  {
    hide Valid, Seal, Attach, Part, Kept;
    match m {
      case Append(_, _) =>
      case Remove(keys) =>
      case Change(at, e) =>
        if at < |s.list| { assert forall x :: x in s.list[at := e] ==> x in s.list || x == e; }
        assert at < |s.list| ==> s.list[at] in s.list;
      case Raise(_) =>
      case Load(page) => if page < |s.d.pages| { LoadedBelow(s, page); }
      case Publish(_, _, _, _, _) =>
    }
  }

  lemma LoadedBelow(s: Life, page: nat)
    requires Sound(s) && AllBelow(s.list, s.floor) && page < |s.d.pages|
    ensures var t := Moved(s, Load(page)); AllBelow(t.list, t.floor)
  {
    hide Attach, Whole, Described;
    AttachKeeps(s.d, s.list, page);
    var t := Moved(s, Load(page));
    assert Linked(s.d.pages, page, 0, s.d.tailFrom);
    forall e | e in t.list ensures e.key < s.floor {
      assert e in multiset(t.list);
      if e !in multiset(s.list) { InPage(s.d, page, e); }
    }
  }

  // So a numbered list always moves as allowed, and keeps all that LifeKept says.
  lemma {:induction false} NumberedProper(moves: seq<Move>)
    requires Numbered(moves)
    ensures Proper(moves) && AllBelow(Run(moves).list, Run(moves).floor)
  {
    hide Moved, Allowed, Ascending;
    if moves != [] {
      var n := |moves| - 1;
      assert Numbered(moves[..n]) by {
        forall k | 0 <= k < n ensures Ascending(Run(moves[..n][..k]), moves[..n][k]) {
          assert moves[..n][..k] == moves[..k];
        }
      }
      NumberedProper(moves[..n]);
      LifeKept(moves[..n]);
      AscendingAllowed(Run(moves[..n]), moves[n]);
      AscendingKeeps(Run(moves[..n]), moves[n]);
      forall k | 0 <= k < |moves| ensures Allowed(Run(moves[..k]), moves[k]) {
        if k < n { assert moves[..n][..k] == moves[..k]; }
      }
    }
  }
}
