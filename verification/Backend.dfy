/**
 * What one request does to a physical connection. The database is an environment: it answers each await
 * with success, an error or nothing before the request's deadline, and an answer that is not a success
 * may hide that the command was carried out.
 */
module Backend {
  import opened Wrappers

  type Statement = int

  /** The errors of the driver, as far as the actor tells them apart. Local stands for all others. */
  datatype SqlError =
    | Io | Tls | Protocol | PoolTimedOut | PoolClosed | WorkerCrashed
    | Database(code: Option<string>)
    | Local

  predicate ConnectionError(e: SqlError) {
    e in {Io, Tls, Protocol, PoolTimedOut, PoolClosed, WorkerCrashed}
  }

  /** Errors after which a connection is not used again. */
  predicate Fatal(e: SqlError) {
    || ConnectionError(e)
    || (e.Database? && e.code.Some? && ("08" <= e.code.value || e.code.value in {"57P01", "57P02", "57P03"}))
  }

  /** How an await ends: with success, with an error, or not before the deadline of the request. */
  datatype End = Done | Fails(error: SqlError, hidden: bool) | Silent(hidden: bool)

  /**
   * The environment's answer to one await: rows before the end, how many statements of a text an answer other
   * than success leaves standing, and the time that passes.
   */
  datatype Answer = Answer(rows: nat, end: End, applied: nat, elapsed: nat)

  /** SQL states with which a server ends a session: connection exceptions, class 08, and the three kinds of shutdown. */
  predicate EndsSession(code: string) {
    (|code| >= 2 && code[0] == '0' && code[1] == '8') || code == "57P01" || code == "57P02" || code == "57P03"
  }

  /**
   * The environment's own account of errors, apart from what the actor makes of them: a refusal, by the server or by
   * the driver on its own, has no effect and leaves the connection in step; any other error may come after the
   * command was carried out, and leaves the answer unread.
   */
  predicate Refusal(e: SqlError) {
    match e
    case Database(code) => code.None? || !EndsSession(code.value)
    case Local => true
    case Io | Tls | Protocol | PoolTimedOut | PoolClosed | WorkerCrashed => false
  }

  /** Whether a command that ended so was carried out. */
  predicate Took(end: End) {
    match end
    case Done => true
    case Fails(error, hidden) => !Refusal(error) && hidden
    case Silent(hidden) => hidden
  }

  /** Whether the whole answer has been read. */
  predicate Synced(end: End) {
    match end
    case Done => true
    case Fails(error, _) => Refusal(error)
    case Silent(_) => false
  }

  /** One physical connection: a transaction may be open, an answer may be left unread. */
  datatype Session = Session(id: nat, open: bool, pending: seq<Statement>, unread: bool)

  datatype Connect = Connect(startedAt: nat, endedAt: nat, ok: bool)

  /** The world outside the actor. */
  datatype Host = Host(
    committed: seq<Statement>,  // statements in effect for good
    script: seq<Answer>,        // the answers to come; none left means silence
    now: nat,
    sessions: nat,              // connections opened so far
    submissions: nat,           // history: business SQL texts handed to the driver
    uses: seq<nat>,             // history: the connection of each command
    connects: seq<Connect>      // history: reconnect attempts
  )

  datatype Net = Net(host: Host, session: Session)

  function Next(h: Host): Answer {
    if h.script == [] then Answer(0, Silent(false), 0, 0) else h.script[0]
  }

  function Rest(h: Host): Host {
    if h.script == [] then h else h.(script := h.script[1..], now := h.now + h.script[0].elapsed)
  }

  /** The answer to a command on a connection. */
  function Heard(n: Net): Net {
    Net(Rest(n.host).(uses := n.host.uses + [n.session.id]), n.session.(unread := n.session.unread || !Synced(Next(n.host).end)))
  }

  function Begin(n: Net): Net {
    var n' := Heard(n);
    if Took(Next(n.host).end) then n'.(session := n'.session.(open := true, pending := [])) else n'
  }

  function Commit(n: Net): Net {
    var n' := Heard(n);
    if Took(Next(n.host).end)
    then Net(n'.host.(committed := n'.host.committed + n'.session.pending), n'.session.(open := false, pending := []))
    else n'
  }

  function Rollback(n: Net): Net {
    var n' := Heard(n);
    if Took(Next(n.host).end) then n'.(session := n'.session.(open := false, pending := [])) else n'
  }

  function Apply(n: Net, statements: seq<Statement>): Net {
    if n.session.open then n.(session := n.session.(pending := n.session.pending + statements))
    else n.(host := n.host.(committed := n.host.committed + statements))
  }

  /** How many of the statements of a text stand: all of them on success, and never the one that was refused. */
  function Standing(a: Answer, count: nat): (standing: nat)
    ensures standing <= count
  {
    var most := if a.end.Fails? && Refusal(a.end.error) && count > 0 then count - 1 else count;
    if a.end.Done? || a.applied > most then most else a.applied
  }

  /** The statements of one SQL text are handed to the driver. */
  function Submit(n: Net, statements: seq<Statement>): Net {
    var n' := Heard(n).(host := Heard(n).host.(submissions := n.host.submissions + 1));
    Apply(n', statements[..Standing(Next(n.host), |statements|)])
  }

  // Requests

  /**
   * SQL whose parameters may not fit the database at hand. MySQL and PostgreSQL take one statement in it, and
   * SQLite runs as many as it holds.
   */
  datatype Query = Query(sql: seq<Statement>, bindable: bool)

  datatype Response =
    | Rows(count: nat)
    | Executed
    | TransactionDone
    | Error(error: SqlError)
    | ErrorBeforeExecution(error: SqlError)
    | ConnectFailed(error: SqlError, retryAfterMs: nat)
    | ReconnectCooldown(retryAfterMs: nat)
    | DisconnectedError(error: SqlError)
    | Timeout
    | TimeoutBeforeExecution
    | RowLimitExceeded(limit: nat)

  predicate RequiresDisconnect(r: Response) {
    match r
    case Timeout | TimeoutBeforeExecution | RowLimitExceeded(_) | DisconnectedError(_) => true
    case Error(e) => Fatal(e)
    case ErrorBeforeExecution(e) => Fatal(e)
    case _ => false
  }

  /** What the reply tells the caller: no business statement was attempted. */
  predicate NotExecuted(r: Response) {
    r.ErrorBeforeExecution? || r.TimeoutBeforeExecution? || r.ConnectFailed? || r.ReconnectCooldown?
  }

  function Classify(r: Response, started: bool): Response {
    if started then r
    else match r
      case Error(e) => ErrorBeforeExecution(e)
      case Timeout => TimeoutBeforeExecution
      case _ => r
  }

  /** The timed future of a request: a response, an error, or the deadline. */
  datatype Outcome = Replied(response: Response) | Failed(error: SqlError) | Elapsed

  /** A future's outcome, what it did, and whether it started a business statement. */
  datatype Served = Served(outcome: Outcome, net: Net, started: bool)

  function Ended(end: End, response: Response): Outcome {
    match end
    case Done => Replied(response)
    case Fails(error, _) => Failed(error)
    case Silent(_) => Elapsed
  }

  function QueryRows(n: Net, q: Query, maxRows: nat): Served {
    if !q.bindable then Served(Failed(Local), n, false)
    else
      var a := Next(n.host);
      var n' := Submit(n, q.sql);
      if a.rows > maxRows then Served(Replied(RowLimitExceeded(maxRows)), n'.(session := n'.session.(unread := true)), true)
      else Served(Ended(a.end, Rows(a.rows)), n', true)
  }

  function Execute(n: Net, q: Query): Served {
    if !q.bindable then Served(Failed(Local), n, false)
    else Served(Ended(Next(n.host).end, Executed), Submit(n, q.sql), true)
  }

  function Batch(n: Net, statements: seq<Statement>): Served {
    Served(Ended(Next(n.host).end, Executed), Submit(n, statements), true)
  }

  /** The statements of a transaction, up to the first that does not succeed. */
  function Statements(n: Net, queries: seq<Query>, started: bool): Served
    decreases |queries|
  {
    if queries == [] then Served(Replied(TransactionDone), n, started)
    else if !queries[0].bindable then Served(Failed(Local), n, started)
    else
      match Next(n.host).end
      case Done => Statements(Submit(n, queries[0].sql), queries[1..], true)
      case Fails(error, _) => Served(Failed(error), Submit(n, queries[0].sql), true)
      case Silent(_) => Served(Elapsed, Submit(n, queries[0].sql), true)
  }

  function RollBack(error: SqlError, n: Net, started: bool): Served {
    Served(match Next(n.host).end
           case Done => Failed(error)
           case Fails(e, _) => Replied(DisconnectedError(e))
           case Silent(_) => Elapsed,
           Rollback(n), started)
  }

  function CommitAll(n: Net, started: bool): Served {
    Served(match Next(n.host).end
           case Done => Replied(TransactionDone)
           case Fails(e, _) => Replied(DisconnectedError(e))
           case Silent(_) => Elapsed,
           Commit(n), started)
  }

  function Transaction(n: Net, queries: seq<Query>): Served {
    match Next(n.host).end
    case Fails(error, _) => Served(Failed(error), Begin(n), false)
    case Silent(_) => Served(Elapsed, Begin(n), false)
    case Done =>
      var s := Statements(Begin(n), queries, false);
      match s.outcome
      case Elapsed => s
      case Failed(error) => RollBack(error, s.net, s.started)
      case Replied(_) => CommitAll(s.net, s.started)
  }

  // The same as methods on a connection, as the actor runs them.

  class Connection {
    var host: Host
    var session: Session

    constructor (host: Host, session: Session)
      ensures this.host == host && this.session == session
    {
      this.host, this.session := host, session;
    }

    function View(): Net
      reads this
    {
      Net(host, session)
    }

    /** Waits for the answer to a command that has been sent. */
    method Await() returns (answer: Answer)
      modifies this
      ensures answer == Next(old(host)) && View() == Heard(old(View()))
    {
      answer := Next(host);
      host := Rest(host).(uses := host.uses + [session.id]);
      session := session.(unread := session.unread || !Synced(answer.end));
    }

    /** A text goes to the driver as one command. */
    method SubmitText(statements: seq<Statement>) returns (answer: Answer)
      modifies this
      ensures answer == Next(old(host)) && View() == Submit(old(View()), statements)
    {
      var before := host.submissions;
      answer := Await();
      host := host.(submissions := before + 1);
      var standing := statements[..Standing(answer, |statements|)];
      if session.open {
        session := session.(pending := session.pending + standing);
      } else {
        host := host.(committed := host.committed + standing);
      }
    }

    method SubmitRaw(statements: seq<Statement>) returns (outcome: Outcome)
      modifies this
      ensures var s := Batch(old(View()), statements);
        outcome == s.outcome && View() == s.net
    {
      var answer := SubmitText(statements);
      outcome := Ended(answer.end, Executed);
    }

    method FetchRows(q: Query, maxRows: nat, started: bool) returns (outcome: Outcome, started': bool)
      modifies this
      ensures var s := QueryRows(old(View()), q, maxRows);
        outcome == s.outcome && View() == s.net && started' == (started || s.started)
    {
      started' := started;
      if !q.bindable {
        return Failed(Local), started';
      }
      started' := true;
      var answer := SubmitText(q.sql);
      var rows := 0;
      while rows < answer.rows
        invariant rows <= answer.rows && rows <= maxRows
      {
        if rows >= maxRows {
          session := session.(unread := true);
          return Replied(RowLimitExceeded(maxRows)), started';
        }
        rows := rows + 1;
      }
      return Ended(answer.end, Rows(rows)), started';
    }

    /** The loop over the statements: an error leaves it early, and the flag is set before each statement is handed over. */
    method ExecuteAll(queries: seq<Query>, started: bool) returns (outcome: Outcome, started': bool)
      modifies this
      ensures var s := Statements(old(View()), queries, started);
        outcome == s.outcome && View() == s.net && started' == s.started && (started ==> started')
    {
      started' := started;
      var i := 0;
      while i < |queries|
        invariant i <= |queries| && (started ==> started')
        invariant Statements(old(View()), queries, started) == Statements(View(), queries[i..], started')
      {
        if !queries[i].bindable {
          return Failed(Local), started';
        }
        started' := true;
        var answer := SubmitText(queries[i].sql);
        match answer.end {
          case Fails(error, _) => return Failed(error), started';
          case Silent(_) => return Elapsed, started';
          case Done =>
        }
        i := i + 1;
      }
      return Replied(TransactionDone), started';
    }

    method RunTransaction(queries: seq<Query>, started: bool) returns (outcome: Outcome, started': bool)
      requires !started
      modifies this
      ensures var s := Transaction(old(View()), queries);
        outcome == s.outcome && View() == s.net && started' == s.started
    {
      started' := started;
      var begun := Await();
      if Took(begun.end) {
        session := session.(open := true, pending := []);
      }
      match begun.end {
        case Fails(error, _) => return Failed(error), started';
        case Silent(_) => return Elapsed, started';
        case Done =>
      }
      var executed;
      executed, started' := ExecuteAll(queries, started');
      if executed.Elapsed? {
        return Elapsed, started';
      }
      var ended := Await();
      if executed.Failed? {
        if Took(ended.end) {
          session := session.(open := false, pending := []);
        }
        match ended.end {
          case Done => return executed, started';
          case Fails(e, _) => return Replied(DisconnectedError(e)), started';
          case Silent(_) => return Elapsed, started';
        }
      }
      if Took(ended.end) {
        host := host.(committed := host.committed + session.pending);
        session := session.(open := false, pending := []);
      }
      match ended.end {
        case Done => return Replied(TransactionDone), started';
        case Fails(e, _) => return Replied(DisconnectedError(e)), started';
        case Silent(_) => return Elapsed, started';
      }
    }
  }
}
