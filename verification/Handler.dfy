/** The actor that owns a connection and serves requests one after the other. */
module Handler {
  import opened Wrappers
  import opened Backend
  import opened Backoff

  datatype Operation =
    | QueryOp(query: Query)
    | ExecuteOp(query: Query)
    | BatchOp(statements: seq<Statement>)
    | TransactionOp(queries: seq<Query>)

  datatype Actor = Actor(
    host: Host,
    backend: Option<Session>,
    retry: Retry,
    retired: set<nat>  // history: connections that have been dropped
  )

  function RunOn(n: Net, op: Operation, maxRows: nat): Served {
    match op
    case QueryOp(query) => QueryRows(n, query, maxRows)
    case ExecuteOp(query) => Execute(n, query)
    case BatchOp(statements) => Batch(n, statements)
    case TransactionOp(queries) => Transaction(n, queries)
  }

  function ResponseTo(outcome: Outcome): Response {
    match outcome
    case Replied(response) => response
    case Failed(error) => Error(error)
    case Elapsed => Timeout
  }

  function Attempted(h: Host): Host {
    Rest(h).(sessions := if Next(h).end.Done? then h.sessions + 1 else h.sessions,
             connects := h.connects + [Connect(h.now, Rest(h).now, Next(h).end.Done?)])
  }

  /** The reconnect attempt has failed, whether with an error or at the deadline of the request. */
  function Unreachable(a: Actor, error: SqlError): (Response, Actor) {
    var host := Attempted(a.host);
    var retry := AfterFailure(a.retry, host.now);
    (ConnectFailed(error, RetryAfterMs(retry, host.now)), a.(host := host, retry := retry))
  }

  function Perform(a: Actor, host: Host, session: Session, op: Operation, maxRows: nat): (Response, Actor) {
    var s := RunOn(Net(host, session), op, maxRows);
    var response := Classify(ResponseTo(s.outcome), s.started);
    var retired := RequiresDisconnect(response);
    (response, Actor(s.net.host, if retired then None else Some(s.net.session), AfterReset(a.retry),
                     if retired then a.retired + {s.net.session.id} else a.retired))
  }

  function Reconnect(a: Actor, op: Operation, maxRows: nat): (Response, Actor) {
    match Next(a.host).end
    case Done => Perform(a, Attempted(a.host), Session(a.host.sessions, false, [], false), op, maxRows)
    case Fails(error, _) => Unreachable(a, error)
    case Silent(_) => Unreachable(a, Io)
  }

  /** One turn of the receive loop. */
  function Serve(a: Actor, op: Operation, maxRows: nat): (Response, Actor) {
    match a.backend
    case Some(session) => Perform(a, a.host, session, op, maxRows)
    case None =>
      var ms := RetryAfterMs(a.retry, a.host.now);
      if ms > 0 then (ReconnectCooldown(ms), a) else Reconnect(a, op, maxRows)
  }

  function Wait(a: Actor, time: nat): Actor {
    a.(host := a.host.(now := a.host.now + time))
  }

  class DatabaseHandler {
    var host: Host
    var backend: Option<Session>
    const backoff: ReconnectBackoff
    const maxRows: nat
    ghost var retired: set<nat>

    constructor (host: Host, session: Session, initial: nat, max: nat, maxRows: nat)
      ensures View() == Actor(host, Some(session), Retry(initial, max, 0, None), {}) && this.maxRows == maxRows && fresh(backoff)
    {
      this.host, backend, this.maxRows, retired := host, Some(session), maxRows, {};
      backoff := new ReconnectBackoff(initial, max);
    }

    ghost function View(): Actor
      reads this, backoff
    {
      Actor(host, backend, backoff.View(), retired)
    }

    /** Runs the operation of a request on the connection. */
    method RunOperation(connection: Connection, op: Operation) returns (outcome: Outcome, started: bool)
      modifies connection
      ensures var s := RunOn(old(connection.View()), op, maxRows);
        outcome == s.outcome && connection.View() == s.net && started == s.started
    {
      match op
      case QueryOp(query) =>
        outcome, started := connection.FetchRows(query, maxRows, false);
      case ExecuteOp(query) =>
        if !query.bindable {
          return Failed(Local), false;
        }
        var answer := connection.SubmitText(query.sql);
        outcome, started := Ended(answer.end, Executed), true;
      case BatchOp(statements) =>
        outcome := connection.SubmitRaw(statements);
        started := true;
      case TransactionOp(queries) =>
        outcome, started := connection.RunTransaction(queries, false);
    }

    method Handle(op: Operation) returns (response: Response)
      modifies this, backoff
      ensures (response, View()) == Serve(old(View()), op, maxRows)
    {
      var retryAfterMs := RetryAfterMs(backoff.View(), host.now);
      if backend.None? && retryAfterMs > 0 {
        return ReconnectCooldown(retryAfterMs);
      }
      if backend.None? {
        var answer := Next(host);
        var id := host.sessions;
        host := Attempted(host);
        if !answer.end.Done? {
          backoff.Failed(host.now);
          var error := if answer.end.Fails? then answer.end.error else Io;
          return ConnectFailed(error, RetryAfterMs(backoff.View(), host.now));
        }
        backend := Some(Session(id, false, [], false));
      }
      backoff.Reset();
      var connection := new Connection(host, backend.value);
      var outcome, started := RunOperation(connection, op);
      host, backend := connection.host, Some(connection.session);
      response := Classify(ResponseTo(outcome), started);
      if RequiresDisconnect(response) {
        retired := retired + {connection.session.id};
        backend := None;
      }
    }
  }
}
