/**
 The server's events route over an agent's root, and the client following it. A cursor is
 the number of the last event seen, in decimal; the route answers with the events that
 follow it, or refuses a cursor whose successor is no longer kept. Followed by the client,
 whatever fails in between, the events come out as one stretch of the agent's log.
 */
module EventsRoute {
  import opened EventsRead
  import opened IndexPages
  import opened Numbers
  import opened Sorting
  import opened Wire
  import opened Wrappers
  import Client = AgentsClient

  const MAX_EVENTS_PAGE: nat := 1000

  // --- cursors ---------------------------------------------------------------

  function Digit(n: nat): char
    requires n < 10
  {
    (n + 48) as char
  }

  function DigitValue(c: char): Option<nat> { if '0' <= c <= '9' then Some(c as int - 48) else None }

  function Decimal(n: nat): (r: string)
    ensures r != ""
  {
    if n < 10 then [Digit(n)] else Decimal(n / 10) + [Digit(n % 10)]
  }

  // The value of a non-empty string of digits.
  function Digits(s: string): Option<nat> {
    if s == "" then None
    else
      var n := |s| - 1;
      var last := DigitValue(s[n]);
      if n == 0 then last
      else
        var before := Digits(s[..n]);
        if before.Some? && last.Some? then Some(10 * before.value + last.value) else None
  }

  // An unsigned 64-bit number, with an optional plus sign.
  function ParseU64(s: string): Option<nat> {
    var v := Digits(if s != "" && s[0] == '+' then s[1..] else s);
    if v.Some? && v.value < U64 then v else None
  }

  lemma {:induction false} DigitsRoundTrip(n: nat)
    ensures Digits(Decimal(n)) == Some(n) && Decimal(n)[0] != '+'
  {
    if n >= 10 {
      DigitsRoundTrip(n / 10);
      var s := Decimal(n);
      assert s[..|s| - 1] == Decimal(n / 10);
    }
  }

  lemma CursorRoundTrip(n: nat)
    requires n < U64
    ensures ParseU64(Decimal(n)) == Some(n)
  {
    hide Digits, Decimal;
    DigitsRoundTrip(n);
  }

  // --- the route -------------------------------------------------------------

  datatype Refusal =
    BadCursor | BadLimit | NoOperation | CursorExpired(oldest: nat) | Unreadable(error: AttachError)

  // An operation's acceptance number, and its state once it has ended.
  datatype Operation = Operation(accept: nat, ended: Option<string>)

  // Whose events are asked for: everyone's, one operation's, or those of a token that
  // names no operation of the agent.
  datatype Asked = All | One(op: Operation) | Unknown

  // The first event a root still answers for.
  function Oldest(d: Directory, list: seq<Entry>, next: nat): nat {
    if d.pages != [] && list != [] then
      if d.pages[0].firstKey < list[0].key then d.pages[0].firstKey else list[0].key
    else if d.pages != [] then d.pages[0].firstKey
    else if list != [] then list[0].key
    else next
  }

  function SeqOf(asked: Asked): Option<nat> { if asked.One? then Some(asked.op.accept) else None }

  function EndOf(asked: Asked): Option<string> { if asked.One? then asked.op.ended else None }

  // An ended operation's page is read one event past the limit, to say whether it is the last.
  function Answer(d: Directory, list: seq<Entry>, after: nat, limit: nat, asked: Asked)
    : Result<Client.Page<Entry>, Refusal>
  {
    var most := Min(limit, MAX_EVENTS_PAGE);
    var page := EventsIn(d, list, after, if EndOf(asked).Some? then most + 1 else most, SeqOf(asked));
    if page.Err? then Err(Unreadable(page.error))
    else
      var events := Take(page.value, most);
      Ok(Client.Page(events, Decimal(if events == [] then after else events[|events| - 1].key),
                     if |page.value| > most then None else EndOf(asked)))
  }

  function Route(d: Directory, list: seq<Entry>, next: nat, cursor: Option<string>, limit: nat, asked: Asked)
    : Result<Client.Page<Entry>, Refusal>
  {
    if cursor.Some? && ParseU64(cursor.value).None? then Err(BadCursor)
    else if limit == 0 then Err(BadLimit)
    else if asked.Unknown? then Err(NoOperation)
    else if cursor.None? then Answer(d, list, 0, limit, asked)
    else
      var c := ParseU64(cursor.value).value;
      var oldest := Oldest(d, list, next);
      if c + 1 < oldest then Err(CursorExpired(oldest)) else Answer(d, list, c, limit, asked)
  }

  // --- a root that serves a log ----------------------------------------------

  // Events are numbered from 1 without gaps.
  ghost predicate Numbered(log: seq<Entry>) { |log| + 1 < U64 && forall i :: 0 <= i < |log| ==> log[i].key == i + 1 }

  // A root as read, with no page attached, that holds the log from a point on; its first
  // page starts with its first event, as sealing leaves it.
  ghost predicate Serves(d: Directory, list: seq<Entry>, next: nat, log: seq<Entry>, trim: nat) {
    && Valid(d, list) && StrictlySorted(list) && (forall i :: 0 <= i < |d.pages| ==> !IsLoaded(d, i))
    && (d.pages != [] ==> d.pages[0].page != [] && d.pages[0].firstKey == d.pages[0].page[0].key)
    && Numbered(log) && trim <= |log| && next == |log| + 1 && multiset(log[trim..]) == Whole(d, list)
    && d.tailFrom <= next
  }

  lemma InWhole(d: Directory, list: seq<Entry>, log: seq<Entry>, trim: nat, e: Entry)
    requires Numbered(log) && trim <= |log| && multiset(log[trim..]) == Whole(d, list) && e in Whole(d, list)
    ensures trim < e.key <= |log| && log[e.key - 1] == e
  {
    hide Whole;
    assert e in multiset(log[trim..]);
    var i :| 0 <= i < |log[trim..]| && log[trim..][i] == e;
  }

  lemma {:induction false} ContentsMember(pages: seq<Meta>, j: nat, e: Entry)
    requires j < |pages| && e in pages[j].page
    ensures e in Contents(pages)
  {
    var n := |pages| - 1;
    if j < n { ContentsMember(pages[..n], j, e); }
  }

  lemma UnattachedWhole(d: Directory, list: seq<Entry>)
    requires forall i :: 0 <= i < |d.pages| ==> !IsLoaded(d, i)
    ensures Whole(d, list) == multiset(list) + Contents(d.pages)
  {
    hide Held, Contents;
    HeldFalse(d.pages, Flags(d, |d.pages|));
  }

  // The oldest event answered for is the first one kept.
  lemma OldestExact(d: Directory, list: seq<Entry>, next: nat, log: seq<Entry>, trim: nat)
    requires Serves(d, list, next, log, trim)
    ensures Oldest(d, list, next) == trim + 1
  {
    hide Whole, Chain, Placed, DistinctKeys, Numbered, Contents, IsLoaded;
    UnattachedWhole(d, list);
    OldestLow(d, list, next, log, trim);
    OldestHigh(d, list, next, log, trim);
  }

  lemma OldestLow(d: Directory, list: seq<Entry>, next: nat, log: seq<Entry>, trim: nat)
    requires Serves(d, list, next, log, trim) && Whole(d, list) == multiset(list) + Contents(d.pages)
    ensures trim + 1 <= Oldest(d, list, next)
  {
    hide Whole, Chain, Placed, DistinctKeys, Numbered, Contents, IsLoaded;
    if list != [] {
      assert list[0] in multiset(list);
      InWhole(d, list, log, trim, list[0]);
    }
    if d.pages != [] {
      var e := d.pages[0].page[0];
      assert e in d.pages[0].page;
      ContentsMember(d.pages, 0, e);
      InWhole(d, list, log, trim, e);
    }
  }

  lemma OldestHigh(d: Directory, list: seq<Entry>, next: nat, log: seq<Entry>, trim: nat)
    requires Serves(d, list, next, log, trim) && Whole(d, list) == multiset(list) + Contents(d.pages)
    ensures Oldest(d, list, next) <= trim + 1
  {
    hide Whole, Placed, DistinctKeys, Contents, IsLoaded;
    if trim < |log| {
      var e := log[trim];
      assert log[trim..][0] == e;
      assert e in multiset(log[trim..]);
      if e in list {
        FirstLeast(list, e);
      } else {
        assert e in Contents(d.pages);
        PageStartsBelow(d, e);
      }
    } else {
      assert log[trim..] == [];
      SomethingKept(d, list);
    }
  }

  lemma FirstLeast(list: seq<Entry>, e: Entry)
    requires StrictlySorted(list) && e in list
    ensures list[0].key <= e.key
  {
    var i :| 0 <= i < |list| && list[i] == e;
  }

  lemma PageStartsBelow(d: Directory, e: Entry)
    requires Chain(d.pages, 0, d.tailFrom) && e in Contents(d.pages)
    ensures d.pages != [] && d.pages[0].firstKey <= e.key
  {
    hide Chain, Contents;
    ContentsPage(d.pages, e);
    var j :| 0 <= j < |d.pages| && e in d.pages[j].page;
    PageKeys(d, j, e);
    if j > 0 { ChainAscends(d.pages, 0, d.tailFrom, 0, j); }
  }

  lemma {:induction false} ContentsPage(pages: seq<Meta>, e: Entry)
    requires e in Contents(pages)
    ensures exists j :: 0 <= j < |pages| && e in pages[j].page
  {
    var n := |pages| - 1;
    if e in Contents(pages[..n]) {
      ContentsPage(pages[..n], e);
      var j :| 0 <= j < n && e in pages[..n][j].page;
      assert e in pages[j].page;
    } else {
      assert e in pages[n].page;
    }
  }

  // A list with a page or an entry in memory holds something.
  lemma SomethingKept(d: Directory, list: seq<Entry>)
    requires Valid(d, list)
    ensures d.pages != [] || list != [] ==> multiset(list) + Contents(d.pages) != multiset{}
  {
    hide Contents, Placed, DistinctKeys, Described;
    var all := multiset(list) + Contents(d.pages);
    if list != [] {
      assert list[0] in multiset(list);
      assert list[0] in all;
    } else if d.pages != [] {
      FirstPageFull(d);
      var e := d.pages[0].page[0];
      ContentsMember(d.pages, 0, e);
      assert e in all;
    }
  }

  lemma FirstPageFull(d: Directory)
    requires Chain(d.pages, 0, d.tailFrom) && d.pages != []
    ensures d.pages[0].page != []
  {
    assert Linked(d.pages, 0, 0, d.tailFrom);
  }

  // --- what the route answers ------------------------------------------------

  // The numbered events after a number are the rest of the log.
  lemma {:induction false} WantNumbered(log: seq<Entry>, trim: nat, n: nat, after: nat)
    requires Numbered(log) && trim <= n <= |log|
    ensures var p := Max(trim, after); Want(log[trim..n], after, None) == if p < n then log[p..n] else []
  {
    hide Want;
    var p := Max(trim, after);
    if trim == n {
      WantNothing(after);
      assert log[trim..n] == [];
    } else {
      WantNumbered(log, trim, n - 1, after);
      WantMore(log[trim..n - 1], log[n - 1], after);
      assert log[trim..n] == log[trim..n - 1] + [log[n - 1]];
      if p < n { assert log[p..n] == log[p..n - 1] + [log[n - 1]]; }
      if p == n - 1 { assert log[p..n - 1] == []; }
    }
  }

  lemma WantNothing(after: nat)
    ensures Want([], after, None) == []
  {
  }

  lemma WantMore(s: seq<Entry>, e: Entry, after: nat)
    ensures Want(s + [e], after, None) == Want(s, after, None) + if e.key > after then [e] else []
  {
    assert (s + [e])[..|s|] == s;
  }

  lemma NumberedSorted(log: seq<Entry>, p: nat)
    requires Numbered(log) && p <= |log|
    ensures StrictlySorted(log[p..]) && DistinctKeys(log[p..])
  {
  }

  // --- one operation's events -----------------------------------------------

  lemma {:induction false} WantStrict(log: seq<Entry>, after: nat, op: Option<nat>)
    requires StrictlySorted(log)
    ensures StrictlySorted(Want(log, after, op))
  {
    hide Wanted;
    if log != [] {
      var n := |log| - 1;
      WantStrict(log[..n], after, op);
      var before := Want(log[..n], after, op);
      forall i | 0 <= i < |before| ensures before[i].key < log[n].key { assert before[i] in log[..n]; }
    }
  }

  // What is wanted of a log is wanted in the order of the log.
  lemma WantedInOrder(log: seq<Entry>, trim: nat, after: nat, limit: nat, op: Option<nat>)
    requires Numbered(log) && trim <= |log|
    ensures FirstWanted(log[trim..], after, limit, op) == Take(Want(log[trim..], after, op), limit)
    ensures StrictlySorted(Want(log[trim..], after, op))
  {
    hide Want, Sort, Numbered;
    NumberedSorted(log, trim);
    WantStrict(log[trim..], after, op);
    var w := Want(log[trim..], after, op);
    assert DistinctKeys(w);
    SortStrict(w);
    StrictUnique(Sort(w, ByKey), w);
  }

  // The next events asked for, in the log's order and at most as many; the number of the
  // last one seen; and the state of an ended operation exactly when these are the last of
  // its events.
  lemma AnswerExact(d: Directory, list: seq<Entry>, next: nat, log: seq<Entry>, trim: nat, after: nat, limit: nat,
                    asked: Asked)
    requires Serves(d, list, next, log, trim)
    ensures var most, left := Min(limit, MAX_EVENTS_PAGE), Want(log[trim..], after, SeqOf(asked));
            var events := Take(left, most);
            Answer(d, list, after, limit, asked)
            == Ok(Client.Page(events, Decimal(if events == [] then after else events[|events| - 1].key),
                              if |left| <= most then EndOf(asked) else None))
  {
    hide EventsIn, FirstWanted, Valid, Whole, Decimal, IsLoaded, StrictlySorted, Want, Numbered;
    var most := Min(limit, MAX_EVENTS_PAGE);
    var want := if EndOf(asked).Some? then most + 1 else most;
    ReadExact(d, list, log[trim..], after, want, SeqOf(asked));
    WantedInOrder(log, trim, after, want, SeqOf(asked));
    TakeLess(Want(log[trim..], after, SeqOf(asked)), most);
  }

  lemma TakeLess(s: seq<Entry>, n: nat)
    ensures Take(Take(s, n + 1), n) == Take(s, n) == Take(Take(s, n), n)
    ensures |Take(s, n + 1)| > n <==> |s| > n
  {
  }

  // Asked for everyone's events, they are the next stretch of the log.
  lemma AnswerAll(d: Directory, list: seq<Entry>, next: nat, log: seq<Entry>, trim: nat, after: nat, limit: nat)
    requires Serves(d, list, next, log, trim)
    ensures var p, most := Max(trim, after), Min(limit, MAX_EVENTS_PAGE);
            var events := if p < |log| then Take(log[p..], most) else [];
            Answer(d, list, after, limit, All)
            == Ok(Client.Page(events, Decimal(if events == [] then after else p + |events|), None))
  {
    hide Valid, Whole, Decimal, IsLoaded, StrictlySorted, Want, Answer;
    AnswerExact(d, list, next, log, trim, after, limit, All);
    assert log[trim..|log|] == log[trim..];
    WantNumbered(log, trim, |log|, after);
    var p, most := Max(trim, after), Min(limit, MAX_EVENTS_PAGE);
    if p < |log| {
      assert log[p..|log|] == log[p..];
      var events := Take(log[p..], most);
      if events != [] { assert events[|events| - 1] == log[p + |events| - 1]; }
    }
  }

  // Reading on from a page's cursor misses and repeats nothing: what was wanted is the page
  // and what is wanted after it. So the page that carries the terminal state is the last.
  lemma OperationContinues(d: Directory, list: seq<Entry>, next: nat, log: seq<Entry>, trim: nat, after: nat,
                           limit: nat, asked: Asked)
    requires Serves(d, list, next, log, trim) && after < U64
    ensures Answer(d, list, after, limit, asked).Ok?
    ensures var page := Answer(d, list, after, limit, asked).value; var c := ParseU64(page.nextCursor);
            && c.Some? && after <= c.value
            && Want(log[trim..], after, SeqOf(asked)) == page.events + Want(log[trim..], c.value, SeqOf(asked))
            && (page.terminal.Some? <==> EndOf(asked).Some? && Want(log[trim..], after, SeqOf(asked)) == page.events)
  {
    hide Answer, ParseU64, Decimal, Valid, Whole, StrictlySorted, IsLoaded, Numbered, Want;
    AnswerExact(d, list, next, log, trim, after, limit, asked);
    var most, left := Min(limit, MAX_EVENTS_PAGE), Want(log[trim..], after, SeqOf(asked));
    var events := Take(left, most);
    var c := if events == [] then after else events[|events| - 1].key;
    ReadOn(d, list, next, log, trim, after, SeqOf(asked), events, c);
    CursorRoundTrip(c);
  }

  // Cutting a beginning off what is wanted leaves what is wanted after it.
  lemma ReadOn(d: Directory, list: seq<Entry>, next: nat, log: seq<Entry>, trim: nat, after: nat, op: Option<nat>,
               events: seq<Entry>, c: nat)
    requires Serves(d, list, next, log, trim) && after < U64 && events <= Want(log[trim..], after, op)
    requires c == if events == [] then after else events[|events| - 1].key
    ensures after <= c < U64 && Want(log[trim..], after, op) == events + Want(log[trim..], c, op)
  {
    hide Valid, Whole, StrictlySorted, IsLoaded, Want, Numbered;
    var left := Want(log[trim..], after, op);
    if events != [] {
      assert events[|events| - 1] == left[|events| - 1] && left[|events| - 1] in left;
      WantedKey(log, trim, events[|events| - 1]);
    }
    NumberedSorted(log, trim);
    WantSplit(log[trim..], after, op, |events|, c);
    assert left == events + left[|events|..];
  }

  lemma WantedKey(log: seq<Entry>, trim: nat, e: Entry)
    requires Numbered(log) && trim <= |log| && e in log[trim..]
    ensures e.key < U64
  {
  }

  lemma StrictSame(s: seq<Entry>, t: seq<Entry>)
    requires StrictlySorted(s) && StrictlySorted(t) && forall e :: e in s <==> e in t
    ensures s == t
  {
    forall e ensures multiset(s)[e] == multiset(t)[e] {
      OnceIn(s, e);
      OnceIn(t, e);
      assert e in multiset(s) <==> e in s;
      assert e in multiset(t) <==> e in t;
    }
    StrictUnique(s, t);
  }

  // Cutting what is wanted after a number behind its n-th entry leaves what is wanted after
  // that entry.
  lemma WantSplit(all: seq<Entry>, after: nat, op: Option<nat>, n: nat, c: nat)
    requires StrictlySorted(all) && n <= |Want(all, after, op)|
    requires c == if n == 0 then after else Want(all, after, op)[n - 1].key
    ensures Want(all, after, op)[n..] == Want(all, c, op)
  {
    hide Want;
    var w := Want(all, after, op);
    WantStrict(all, after, op);
    WantStrict(all, c, op);
    forall e ensures e in w[n..] <==> e in Want(all, c, op) { BehindCut(all, after, op, n, c, e); }
    StrictSame(w[n..], Want(all, c, op));
  }

  lemma BehindCut(all: seq<Entry>, after: nat, op: Option<nat>, n: nat, c: nat, e: Entry)
    requires StrictlySorted(Want(all, after, op)) && n <= |Want(all, after, op)|
    requires c == if n == 0 then after else Want(all, after, op)[n - 1].key
    ensures e in Want(all, after, op)[n..] <==> e in Want(all, c, op)
  {
    hide Want;
    var w := Want(all, after, op);
    if n > 0 { assert w[n - 1] in w; }
    if e in w[n..] {
      var i :| 0 <= i < |w[n..]| && w[n..][i] == e;
      assert e == w[n + i] && e in w;
    }
    if e in Want(all, c, op) {
      assert e in w;
      var i :| 0 <= i < |w| && w[i] == e;
      assert i >= n;
      assert e == w[n..][i - n];
    }
  }

  // Where a cursor points: behind the event it names, or to the start.
  function PositionOf(cursor: Option<string>): nat {
    if cursor.None? || ParseU64(cursor.value).None? then 0 else ParseU64(cursor.value).value
  }

  // A server that fails, or answers requests for all events as the route does over some
  // root of the agent.
  ghost predicate AnswersAs(server: Client.EventsServer<Entry>, d: Directory, list: seq<Entry>, next: nat) {
    forall q: Client.EventsRequest :: q.operation.None? && server(q).Ok? ==>
      Route(d, list, next, q.cursor, q.limit, All) == Ok(server(q).value)
  }

  // Over a root that serves a log, the route pages after the cursor, in that log and in
  // any later one.
  lemma RoutePages(server: Client.EventsServer<Entry>, d: Directory, list: seq<Entry>, next: nat, log: seq<Entry>,
                   trim: nat, full: seq<Entry>, q: Client.EventsRequest)
    requires Serves(d, list, next, log, trim) && AnswersAs(server, d, list, next) && log <= full && |full| + 1 < U64
    requires q.operation.None? && (q.cursor.Some? || trim == 0) && PositionOf(q.cursor) <= |full|
    ensures Client.PagesAfter(server, full, PositionOf, q)
  {
    hide Answer, ParseU64, Decimal, Serves, Oldest;
    if server(q).Ok? {
      var r := Route(d, list, next, q.cursor, q.limit, All);
      OldestExact(d, list, next, log, trim);
      var c := PositionOf(q.cursor);
      AnswerPages(d, list, next, log, trim, c, q.limit, full);
    }
  }

  lemma AnswerPages(d: Directory, list: seq<Entry>, next: nat, log: seq<Entry>, trim: nat, after: nat, limit: nat,
                    full: seq<Entry>)
    requires Serves(d, list, next, log, trim) && log <= full && |full| + 1 < U64 && trim <= after <= |full|
    ensures Answer(d, list, after, limit, All).Ok?
    ensures var page := Answer(d, list, after, limit, All).value; var n := |page.events|;
            && n <= limit && after + n <= |full| && page.events == full[after..after + n]
            && ParseU64(page.nextCursor) == Some(after + n)
  {
    hide Answer, ParseU64, Decimal, Valid, Whole, StrictlySorted, IsLoaded;
    AnswerAll(d, list, next, log, trim, after, limit);
    var n := |Answer(d, list, after, limit, All).value.events|;
    assert log == full[..|log|];
    CursorRoundTrip(after + n);
  }

  // The route answers exactly a positive limit, no operation or one of the agent's, and no
  // cursor or one whose successor is kept or still to come.
  lemma RouteAnswersIff(d: Directory, list: seq<Entry>, next: nat, log: seq<Entry>, trim: nat, cursor: Option<string>,
                        limit: nat, asked: Asked)
    requires Serves(d, list, next, log, trim)
    ensures Route(d, list, next, cursor, limit, asked).Ok? <==>
            && limit > 0 && !asked.Unknown?
            && (cursor.None? || (ParseU64(cursor.value).Some? && ParseU64(cursor.value).value >= trim))
  {
    hide Answer, ParseU64, Serves, Oldest, Want;
    OldestExact(d, list, next, log, trim);
    Answers(d, list, next, log, trim, 0, limit, asked);
    if cursor.Some? && ParseU64(cursor.value).Some? {
      Answers(d, list, next, log, trim, ParseU64(cursor.value).value, limit, asked);
    }
  }

  lemma Answers(d: Directory, list: seq<Entry>, next: nat, log: seq<Entry>, trim: nat, after: nat, limit: nat,
                asked: Asked)
    requires Serves(d, list, next, log, trim)
    ensures Answer(d, list, after, limit, asked).Ok?
  {
    hide Serves, Want, Answer;
    AnswerExact(d, list, next, log, trim, after, limit, asked);
  }

  // --- the client and the server together ------------------------------------

  datatype Root = Root(d: Directory, list: seq<Entry>, next: nat, log: seq<Entry>, trim: nat)

  // Call i fails or is answered over root i, which serves a part of one and the same log.
  ghost predicate Served(turns: seq<Client.Turn<Entry>>, roots: seq<Root>, full: seq<Entry>, start: Option<string>) {
    && |roots| == |turns| && |full| + 1 < U64
    && forall i :: 0 <= i < |turns| ==>
         && Serves(roots[i].d, roots[i].list, roots[i].next, roots[i].log, roots[i].trim) && roots[i].log <= full
         && AnswersAs(turns[i].server, roots[i].d, roots[i].list, roots[i].next)
         && (start.Some? || roots[i].trim == 0)
  }

  // A client following an agent through any calls, failures, growth, sealing and trimming
  // receives exactly the events between its first and its last cursor, each once.
  lemma FollowExact(agent: Client.AgentRef, start: Option<string>, turns: seq<Client.Turn<Entry>>, roots: seq<Root>,
                    full: seq<Entry>)
    requires Served(turns, roots, full, start) && PositionOf(start) <= |full|
    ensures var (events, at) := Client.Receive(agent, start, turns);
            PositionOf(start) <= PositionOf(at) <= |full| && events == full[PositionOf(start)..PositionOf(at)]
  {
    hide Serves, AnswersAs, Client.PagesAfter, Client.Receive, PositionOf;
    forall i, q: Client.EventsRequest
      | 0 <= i < |turns| && q.operation.None? && (q.cursor.Some? || start.None?) && PositionOf(q.cursor) <= |full|
      ensures Client.PagesAfter(turns[i].server, full, PositionOf, q)
    {
      var r := roots[i];
      RoutePages(turns[i].server, r.d, r.list, r.next, r.log, r.trim, full, q);
    }
    Client.Continuation(agent, start, turns, full, PositionOf);
  }
}
