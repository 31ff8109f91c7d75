/**
 The agents client. A send is made once; a lost outcome is resolved once, under the same
 request id; nothing else is retried, whatever the server answers. An event cursor moves
 only when a page arrives, so that over any run of successes and failures the pages form
 one gap-free stretch of the agent's log.
 */
module AgentsClient {
  import opened Wire
  import opened Wrappers
  import ErrorText

  // --- errors ----------------------------------------------------------------

  datatype ErrorKind =
    | AgentGone | IdempotencyConflict | OutcomeUnknown | OwnershipLost | IncompatibleHandler | NonDeterministicReplay
    | EffectInDoubt | MailboxFull | BudgetExceeded | StoreUnavailable | UnsupportedFormat

  datatype RetryHint = Never | Backoff | ResolveOperation | Reconcile

  function KindCode(k: ErrorKind): string {
    match k
    case AgentGone => "agent_gone"
    case IdempotencyConflict => "idempotency_conflict"
    case OutcomeUnknown => "outcome_unknown"
    case OwnershipLost => "ownership_lost"
    case IncompatibleHandler => "incompatible_handler"
    case NonDeterministicReplay => "non_deterministic_replay"
    case EffectInDoubt => "effect_in_doubt"
    case MailboxFull => "mailbox_full"
    case BudgetExceeded => "budget_exceeded"
    case StoreUnavailable => "store_unavailable"
    case UnsupportedFormat => "unsupported_format"
  }

  function RetryCode(r: RetryHint): string {
    match r
    case Never => "never"
    case Backoff => "backoff"
    case ResolveOperation => "resolve_operation"
    case Reconcile => "reconcile"
  }

  const KINDS: seq<ErrorKind> :=
    [AgentGone, IdempotencyConflict, OutcomeUnknown, OwnershipLost, IncompatibleHandler, NonDeterministicReplay,
     EffectInDoubt, MailboxFull, BudgetExceeded, StoreUnavailable, UnsupportedFormat]

  const HINTS: seq<RetryHint> := [Never, Backoff, ResolveOperation, Reconcile]

  // The first one whose code it is.
  function FindKind(code: string, kinds: seq<ErrorKind>): (r: Option<ErrorKind>)
    ensures r.Some? ==> KindCode(r.value) == code
    ensures r.None? ==> forall i :: 0 <= i < |kinds| ==> KindCode(kinds[i]) != code
  {
    if kinds == [] then None else if KindCode(kinds[0]) == code then Some(kinds[0]) else FindKind(code, kinds[1..])
  }

  function FindHint(code: string, hints: seq<RetryHint>): (r: Option<RetryHint>)
    ensures r.Some? ==> RetryCode(r.value) == code
    ensures r.None? ==> forall i :: 0 <= i < |hints| ==> RetryCode(hints[i]) != code
  {
    if hints == [] then None else if RetryCode(hints[0]) == code then Some(hints[0]) else FindHint(code, hints[1..])
  }

  datatype ErrorBody = ErrorBody(code: string, retry: string, reason: string)

  datatype ClientError =
    | Agent(status: nat, kind: Option<ErrorKind>, retry: Option<RetryHint>, body: ErrorBody)
    | Unauthorized(message: Bytes)
    | Forbidden(message: Bytes)
    | NotServed
    | Http(status: nat, text: Bytes)
    | Decode
    | Transport

  function KindOf(e: ClientError): Option<ErrorKind> { if e.Agent? then e.kind else None }

  function RetryOf(e: ClientError): Option<RetryHint> { if e.Agent? then e.retry else None }

  // What came back: nothing, or a status and a body, with the readings of the body that
  // succeed.
  datatype Response =
    | Lost
    | Reply(status: nat, body: Bytes, plain: Option<Bytes>, error: Option<ErrorBody>, sent: Option<SendResponse>,
            resolved: Option<ResolveResponse>)

  predicate Success(status: nat) { 200 <= status < 300 }

  function ErrorFrom(r: Response): ClientError
    requires r.Reply?
  {
    if r.status == 401 then Unauthorized(if r.plain.Some? then r.plain.value else ErrorText.Cut(r.body))
    else if r.status == 403 then Forbidden(if r.plain.Some? then r.plain.value else ErrorText.Cut(r.body))
    else if r.error.Some? then
      Agent(r.status, FindKind(r.error.value.code, KINDS), FindHint(r.error.value.retry, HINTS), r.error.value)
    else if r.status == 404 then NotServed
    else Http(r.status, ErrorText.Cut(r.body))
  }

  function Read<T>(r: Response, value: Option<T>): Result<T, ClientError> {
    if r.Lost? then Err(Transport)
    else if !Success(r.status) then Err(ErrorFrom(r))
    else if value.Some? then Ok(value.value)
    else Err(Decode)
  }

  // --- send_resolving --------------------------------------------------------

  datatype AgentRef = AgentRef(kind: string, key: string)

  datatype SendRequest = SendRequest(agent: AgentRef, handler: string, requestId: string, payload: Bytes)

  datatype ResolveRequest = ResolveRequest(agent: AgentRef, handler: string, requestId: string)

  datatype SendResponse = SendResponse(operation: string, acceptSeq: nat, duplicate: bool)

  datatype ResolveResponse = ResolveResponse(operation: Option<string>)

  datatype SendOutcome = Accepted(sent: SendResponse) | Resolved(resolved: ResolveResponse)

  datatype Call = Send(send: SendRequest) | Resolve(resolve: ResolveRequest)

  // A server answers the last call by everything it was ever asked.
  type Server = seq<Call> -> Response

  function SendOnce(request: SendRequest, server: Server, history: seq<Call>): Result<SendResponse, ClientError> {
    var r := server(history + [Send(request)]);
    Read(r, if r.Reply? then r.sent else None)
  }

  function ResolveOf(request: SendRequest): ResolveRequest {
    ResolveRequest(request.agent, request.handler, request.requestId)
  }

  // The outcome, and the calls made by then.
  function SendResolving(request: SendRequest, server: Server, history: seq<Call>)
    : (Result<SendOutcome, ClientError>, seq<Call>)
  {
    var asked := history + [Send(request)];
    match SendOnce(request, server, history)
    case Ok(sent) => (Ok(Accepted(sent)), asked)
    case Err(e) =>
      if KindOf(e) == Some(OutcomeUnknown) && RetryOf(e) == Some(ResolveOperation) then
        var again := asked + [Resolve(ResolveOf(request))];
        var r := server(again);
        match Read(r, if r.Reply? then r.resolved else None)
        case Ok(resolved) => (Ok(Resolved(resolved)), again)
        case Err(e2) => (Err(e2), again)
      else (Err(e), asked)
  }

  // The one answer that asks for a resolve: a refusal that says the outcome is unknown and
  // the operation should be resolved, and is neither a success nor a refused credential.
  predicate SaysResolve(r: Response) {
    && r.Reply? && !Success(r.status) && r.status != 401 && r.status != 403
    && r.error.Some? && r.error.value.code == "outcome_unknown" && r.error.value.retry == "resolve_operation"
  }

  lemma CodesRead(code: string, retry: string)
    ensures FindKind(code, KINDS) == Some(OutcomeUnknown) <==> code == "outcome_unknown"
    ensures FindHint(retry, HINTS) == Some(ResolveOperation) <==> retry == "resolve_operation"
  {
    assert KINDS[2] == OutcomeUnknown && HINTS[2] == ResolveOperation;
    OnlyCode(FindKind("outcome_unknown", KINDS).value);
    OnlyHint(FindHint("resolve_operation", HINTS).value);
  }

  lemma OnlyCode(k: ErrorKind)
    ensures KindCode(k) == "outcome_unknown" <==> k == OutcomeUnknown
  {
  }

  lemma OnlyHint(h: RetryHint)
    ensures RetryCode(h) == "resolve_operation" <==> h == ResolveOperation
  {
  }

  // One send, and a resolve of the same request exactly after that one answer.
  lemma OneSend(request: SendRequest, server: Server, history: seq<Call>)
    ensures var asked := history + [Send(request)];
            SendResolving(request, server, history).1
            == if SaysResolve(server(asked)) then asked + [Resolve(ResolveOf(request))] else asked
  {
    hide FindKind, FindHint;
    var r := server(history + [Send(request)]);
    if r.Reply? && r.error.Some? { CodesRead(r.error.value.code, r.error.value.retry); }
  }

  // A success with a body that reads.
  predicate Sent(r: Response, s: SendResponse) { r.Reply? && 200 <= r.status <= 299 && r.sent == Some(s) }

  predicate ResolvedTo(r: Response, s: ResolveResponse) { r.Reply? && 200 <= r.status <= 299 && r.resolved == Some(s) }

  // The outcome is accepted exactly with what a successful send answered, resolved exactly
  // with what a successful resolve answered after that one refusal, and otherwise an error.
  lemma OutcomeExact(request: SendRequest, server: Server, history: seq<Call>, s: SendResponse, v: ResolveResponse)
    ensures var asked := history + [Send(request)];
            var again := asked + [Resolve(ResolveOf(request))];
            var outcome := SendResolving(request, server, history).0;
            && (outcome == Ok(Accepted(s)) <==> Sent(server(asked), s))
            && (outcome == Ok(Resolved(v)) <==> SaysResolve(server(asked)) && ResolvedTo(server(again), v))
  {
    hide FindKind, FindHint, ErrorText.Cut;
    var r := server(history + [Send(request)]);
    if r.Reply? && r.error.Some? { CodesRead(r.error.value.code, r.error.value.retry); }
  }

  // What each failed reply becomes; a body that is not understood is kept to 512 bytes.
  lemma ErrorsTyped(r: Response)
    requires r.Reply?
    ensures var e := ErrorFrom(r);
            && (e.Unauthorized? <==> r.status == 401) && (e.Forbidden? <==> r.status == 403)
            && (e.Agent? <==> r.error.Some? && r.status != 401 && r.status != 403)
            && (e.NotServed? <==> r.status == 404 && r.error.None?)
            && (e.Http? ==> e.status == r.status && e.text <= r.body && |e.text| <= 512)
            && (e.Agent? ==> e.status == r.status && e.body == r.error.value)
            && !e.Transport? && !e.Decode?
  {
    hide FindKind, FindHint;
  }

  // An error is the last reply's: lost, unread, refused, or one of the agent's errors.
  lemma OutcomeErrors(request: SendRequest, server: Server, history: seq<Call>)
    ensures var (outcome, calls) := SendResolving(request, server, history);
            var last := server(calls);
            && (outcome == Err(Transport) <==> last.Lost?)
            && (outcome.Err? && outcome.error.Unauthorized? <==> last.Reply? && last.status == 401)
            && (outcome.Err? && outcome.error.Forbidden? <==> last.Reply? && last.status == 403)
            && (outcome.Err? && !outcome.error.Transport? && !outcome.error.Decode? <==>
                last.Reply? && !Success(last.status))
            && (outcome.Err? && outcome.error.Agent? ==>
                  last.error == Some(outcome.error.body) && last.status == outcome.error.status)
            && (outcome.Err? && outcome.error.Http? ==>
                  outcome.error.text <= last.body && |outcome.error.text| <= 512)
  {
    hide FindKind, FindHint, ErrorText.Cut, ErrorFrom;
    var asked := history + [Send(request)];
    OneSend(request, server, history);
    if server(asked).Reply? { ErrorsTyped(server(asked)); }
    var again := asked + [Resolve(ResolveOf(request))];
    if server(again).Reply? { ErrorsTyped(server(again)); }
  }

  // --- any number of sends ---------------------------------------------------

  function SendAll(requests: seq<SendRequest>, server: Server): seq<Call> {
    if requests == [] then []
    else
      var n := |requests| - 1;
      SendResolving(requests[n], server, SendAll(requests[..n], server)).1
  }

  function Sends(calls: seq<Call>): seq<SendRequest> {
    if calls == [] then []
    else
      var n := |calls| - 1;
      Sends(calls[..n]) + if calls[n].Send? then [calls[n].send] else []
  }

  // The call at i is a resolve exactly when the call before it was a send that got the
  // one answer, and it is that send's request.
  ghost predicate Answered(calls: seq<Call>, server: Server, i: nat)
    requires i < |calls|
  {
    && (calls[i].Resolve? ==> i > 0 && calls[i - 1].Send? && SaysResolve(server(calls[..i]))
                              && calls[i].resolve == ResolveOf(calls[i - 1].send))
    && (calls[i].Send? && i > 0 ==> calls[i - 1].Resolve? || !SaysResolve(server(calls[..i])))
  }

  ghost predicate Settled(calls: seq<Call>, server: Server) {
    calls != [] ==> calls[|calls| - 1].Resolve? || !SaysResolve(server(calls))
  }

  // Over any list of requests and any server, each request is sent once, in order, and
  // the resolves are exactly those the answers asked for.
  lemma {:induction false} RunSafe(requests: seq<SendRequest>, server: Server)
    ensures var calls := SendAll(requests, server);
            && Sends(calls) == requests && Settled(calls, server)
            && forall i :: 0 <= i < |calls| ==> Answered(calls, server, i)
  {
    hide SendResolving, SaysResolve;
    if requests != [] {
      var n := |requests| - 1;
      RunSafe(requests[..n], server);
      var calls, q := SendAll(requests[..n], server), requests[n];
      OneSend(q, server, calls);
      var asked := calls + [Send(q)];
      assert asked[..|calls|] == calls;
      KeepsAnswered(calls, server, Send(q));
      assert requests == requests[..n] + [q];
      if SaysResolve(server(asked)) {
        KeepsAnswered(asked, server, Resolve(ResolveOf(q)));
        assert (asked + [Resolve(ResolveOf(q))])[..|asked|] == asked;
      }
    }
  }

  lemma KeepsAnswered(calls: seq<Call>, server: Server, call: Call)
    requires forall i :: 0 <= i < |calls| ==> Answered(calls, server, i)
    requires call.Send? ==> Settled(calls, server)
    requires call.Resolve? ==> calls != [] && calls[|calls| - 1].Send? && SaysResolve(server(calls))
                               && call.resolve == ResolveOf(calls[|calls| - 1].send)
    ensures forall i :: 0 <= i < |calls| + 1 ==> Answered(calls + [call], server, i)
  {
    hide SaysResolve;
    var more := calls + [call];
    assert more[..|calls|] == calls;
    forall i | 0 <= i < |calls| ensures Answered(more, server, i) {
      assert more[..i] == calls[..i] && Answered(calls, server, i);
    }
  }

  // --- the event cursor ------------------------------------------------------

  const EVENTS_PAGE_CAP: nat := 1000

  datatype EventsRequest = EventsRequest(agent: AgentRef, cursor: Option<string>, limit: nat, operation: Option<string>)

  // The terminal state is only ever given for a request that names an operation.
  datatype Page<E> = Page(events: seq<E>, nextCursor: string, terminal: Option<string>)

  type EventsServer<!E> = EventsRequest -> Result<Page<E>, ClientError>

  function RequestOf(agent: AgentRef, cursor: Option<string>, limit: nat): (q: EventsRequest)
    ensures q.agent == agent && q.cursor == cursor && q.operation.None?
    ensures q.limit <= 1000 && q.limit <= limit && (limit <= 1000 ==> q.limit == limit)
  {
    EventsRequest(agent, cursor, if limit < EVENTS_PAGE_CAP then limit else EVENTS_PAGE_CAP, None)
  }

  class EventCursor {
    var agent: AgentRef
    var cursor: Option<string>

    constructor (a: AgentRef, c: Option<string>)
      ensures agent == a && cursor == c
    {
      agent, cursor := a, c;
    }

    method NextPage<E>(server: EventsServer<E>, limit: nat) returns (r: Result<Page<E>, ClientError>)
      modifies this`cursor
      ensures r == server(RequestOf(agent, old(cursor), limit))
      ensures cursor == if r.Ok? then Some(r.value.nextCursor) else old(cursor)
    {
      r := server(RequestOf(agent, cursor, limit));
      if r.Ok? {
        cursor := Some(r.value.nextCursor);
      }
    }
  }

  // One call: how much is asked for, and the server at that moment.
  datatype Turn<!E> = Turn(limit: nat, server: EventsServer<E>)

  // The events received over a run of calls, and the cursor after it.
  function Receive<E>(agent: AgentRef, cursor: Option<string>, turns: seq<Turn<E>>): (seq<E>, Option<string>) {
    if turns == [] then ([], cursor)
    else
      var n := |turns| - 1;
      var (events, at) := Receive(agent, cursor, turns[..n]);
      match turns[n].server(RequestOf(agent, at, turns[n].limit))
      case Err(_) => (events, at)
      case Ok(page) => (events + page.events, Some(page.nextCursor))
  }

  method Follow<E>(agent: AgentRef, cursor: Option<string>, turns: seq<Turn<E>>)
    returns (events: seq<E>, at: Option<string>)
    ensures (events, at) == Receive(agent, cursor, turns)
  {
    var c := new EventCursor(agent, cursor);
    events := [];
    for i := 0 to |turns|
      invariant c.agent == agent && (events, c.cursor) == Receive(agent, cursor, turns[..i])
    {
      assert turns[..i + 1][..i] == turns[..i];
      var r := c.NextPage(turns[i].server, turns[i].limit);
      if r.Ok? {
        events := events + r.value.events;
      }
    }
    assert turns[..|turns|] == turns;
    at := c.cursor;
  }

  // Where a cursor points in the log; no cursor is the start.
  type Position = Option<string> -> nat

  // A server that pages after the cursor: an answer is the next stretch of the log, no
  // longer than asked for, and its cursor points behind it. It may fail at any time.
  ghost predicate PagesAfter<E>(server: EventsServer<E>, log: seq<E>, position: Position, q: EventsRequest) {
    var r := server(q);
    r.Ok? ==>
      var p, n := position(q.cursor), |r.value.events|;
      && n <= q.limit && p + n <= |log| && r.value.events == log[p..p + n]
      && position(Some(r.value.nextCursor)) == p + n
  }

  // For every request for all events and every cursor a run from a given one can come to:
  // that one itself, and any other that points into the log.
  ghost predicate Faithful<E>(turns: seq<Turn<E>>, log: seq<E>, position: Position, start: Option<string>) {
    forall i, q: EventsRequest ::
      0 <= i < |turns| && q.operation.None? && (q.cursor.Some? || start.None?) && position(q.cursor) <= |log| ==>
        PagesAfter(turns[i].server, log, position, q)
  }

  // Whatever fails, what was received is exactly the log from the first cursor to the last.
  lemma {:induction false} Continuation<E>(agent: AgentRef, cursor: Option<string>, turns: seq<Turn<E>>, log: seq<E>,
                                           position: Position)
    requires Faithful(turns, log, position, cursor) && position(cursor) <= |log|
    ensures var (events, at) := Receive(agent, cursor, turns);
            && position(cursor) <= position(at) <= |log| && events == log[position(cursor)..position(at)]
            && (at.Some? || cursor.None?)
  {
    hide Receive, Faithful;
    ReceiveStep(agent, cursor, turns);
    if turns != [] {
      var n := |turns| - 1;
      FaithfulPrefix(turns, log, position, cursor, n);
      Continuation(agent, cursor, turns[..n], log, position);
      var (events, at) := Receive(agent, cursor, turns[..n]);
      FaithfulAt(turns, log, position, cursor, n, RequestOf(agent, at, turns[n].limit));
    }
  }

  lemma ReceiveStep<E>(agent: AgentRef, cursor: Option<string>, turns: seq<Turn<E>>)
    ensures Receive(agent, cursor, turns) ==
            if turns == [] then ([], cursor)
            else
              var n := |turns| - 1;
              var (events, at) := Receive(agent, cursor, turns[..n]);
              match turns[n].server(RequestOf(agent, at, turns[n].limit))
              case Err(_) => (events, at)
              case Ok(page) => (events + page.events, Some(page.nextCursor))
  {
  }

  lemma FaithfulPrefix<E>(turns: seq<Turn<E>>, log: seq<E>, position: Position, start: Option<string>, n: nat)
    requires Faithful(turns, log, position, start) && n <= |turns|
    ensures Faithful(turns[..n], log, position, start)
  {
    hide PagesAfter;
  }

  lemma FaithfulAt<E>(turns: seq<Turn<E>>, log: seq<E>, position: Position, start: Option<string>, i: nat,
                      q: EventsRequest)
    requires Faithful(turns, log, position, start) && i < |turns|
    requires q.operation.None? && (q.cursor.Some? || start.None?) && position(q.cursor) <= |log|
    ensures PagesAfter(turns[i].server, log, position, q)
  {
    hide PagesAfter;
  }

  // Starting again from a cursor that was kept is the same as never having stopped.
  lemma {:induction false} Resumes<E>(agent: AgentRef, cursor: Option<string>, first: seq<Turn<E>>,
                                      second: seq<Turn<E>>)
    ensures var (events, at) := Receive(agent, cursor, first);
            var (more, end) := Receive(agent, at, second);
            Receive(agent, cursor, first + second) == (events + more, end)
  {
    var (events, at) := Receive(agent, cursor, first);
    if second == [] {
      assert first + second == first && events + [] == events;
    } else {
      var n := |second| - 1;
      Resumes(agent, cursor, first, second[..n]);
      assert (first + second)[..|first| + n] == first + second[..n];
      var (more, end) := Receive(agent, at, second[..n]);
      var r := second[n].server(RequestOf(agent, end, second[n].limit));
      if r.Ok? { assert events + (more + r.value.events) == (events + more) + r.value.events; }
    }
  }

  // In particular nothing arrives twice.
  lemma NoneTwice<E>(agent: AgentRef, cursor: Option<string>, turns: seq<Turn<E>>, log: seq<E>, position: Position,
                     i: nat, j: nat)
    requires Faithful(turns, log, position, cursor) && position(cursor) <= |log|
    requires forall a, b :: 0 <= a < b < |log| ==> log[a] != log[b]
    requires i < j < |Receive(agent, cursor, turns).0|
    ensures Receive(agent, cursor, turns).0[i] != Receive(agent, cursor, turns).0[j]
  {
    hide Receive;
    Continuation(agent, cursor, turns, log, position);
    var p := position(cursor);
    var events := Receive(agent, cursor, turns).0;
    assert events[i] == log[p + i] && events[j] == log[p + j];
  }
}
