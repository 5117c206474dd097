/** What a request comes to when its database answers in a given way: when it succeeds, what it replies, and when a lost connection is made again. */
module HandlerAnswers {
  import opened Wrappers
  import opened Backend
  import opened Backoff
  import opened Handler
  import opened HandlerProofs

  // When a transaction succeeds

  /** The next so many answers are successes. */
  predicate AllDone(script: seq<Answer>, count: nat) {
    count <= |script| && forall i :: 0 <= i < count ==> script[i].end.Done?
  }

  /** How an await ends; after the last answer there is silence. */
  function EndAt(script: seq<Answer>, i: nat): End {
    if i < |script| then script[i].end else Silent(false)
  }

  lemma AllDoneMore(script: seq<Answer>, count: nat)
    ensures AllDone(script, count + 1) <==> EndAt(script, 0).Done? && AllDone(script[if script == [] then 0 else 1..], count)
  {
    if script != [] {
      assert forall i :: 0 < i < |script| ==> script[i] == script[1..][i - 1];
    }
  }

  /** All statements succeed exactly when all of them bind and the answers to all of them are successes. */
  lemma {:induction false} StatementsSucceed(n: Net, queries: seq<Query>, started: bool)
    ensures var s := Statements(n, queries, started); var script := n.host.script;
      && (s.outcome.Replied? <==> Bindable(queries) && AllDone(script, |queries|))
      && (s.outcome.Replied? ==> s.net.host.script == script[|queries|..])
    decreases |queries|
  {
    var script := n.host.script;
    if queries == [] {
      assert script[0..] == script;
    } else {
      AllDoneMore(script, |queries| - 1);
      assert Bindable(queries) <==> queries[0].bindable && Bindable(queries[1..]) by {
        assert forall i :: 0 < i < |queries| ==> queries[i] == queries[1..][i - 1];
      }
      if queries[0].bindable && Next(n.host).end.Done? {
        StatementsSucceed(Submit(n, queries[0].sql), queries[1..], true);
        assert Submit(n, queries[0].sql).host.script == script[1..];
        assert AllDone(script, |queries|) ==> script[1..][|queries| - 1..] == script[|queries|..];
      }
    }
  }

  lemma DoneAfter(script: seq<Answer>, count: nat)
    ensures AllDone(script, count + 1) <==> AllDone(script, count) && EndAt(script, count).Done?
  {
  }

  /**
   * A transaction succeeds exactly when all its queries bind and begin, every query and commit are answered with
   * success; then all its statements are in effect, in order, and the connection is clean.
   */
  lemma TransactionSucceedsExactly(n: Net, queries: seq<Query>)
    requires Clean(n.session)
    ensures var s := Transaction(n, queries);
      && (s.outcome == Replied(TransactionDone) <==> Bindable(queries) && AllDone(n.host.script, |queries| + 2))
      && (s.outcome == Replied(TransactionDone) ==>
        s.net.host.committed == n.host.committed + Sqls(queries) && Clean(s.net.session))
  {
    var script := n.host.script;
    TransactionIsAtomic(n, queries);
    AllDoneMore(script, |queries| + 1);
    if Next(n.host).end.Done? {
      StatementsSucceed(Begin(n), queries, false);
      DoneAfter(script[1..], |queries|);
      assert Begin(n).host.script == script[1..];
      CommitAnswer(Begin(n), queries);
    }
  }

  /** After the statements the next answer is that to commit. */
  lemma CommitAnswer(n: Net, queries: seq<Query>)
    ensures var s := Statements(n, queries, false);
      s.outcome.Replied? ==> Next(s.net.host).end == EndAt(n.host.script, |queries|)
  {
    StatementsSucceed(n, queries, false);
  }

  // When it fails, and how it is rolled back

  /**
   * The begin and the first k statements succeed, and the next one fails with the error: it does not bind, or it is
   * answered so. The begin and so many statements have been answered.
   */
  predicate FailsAt(script: seq<Answer>, queries: seq<Query>, k: nat, error: SqlError, answered: nat) {
    && k < |queries| && Bindable(queries[..k]) && AllDone(script, k)
    && if queries[k].bindable then EndAt(script, k).Fails? && EndAt(script, k).error == error && answered == k + 1
       else error == Local && answered == k
  }

  lemma {:induction false} StatementsFail(n: Net, queries: seq<Query>, started: bool, k: nat, error: SqlError, answered: nat)
    requires FailsAt(n.host.script, queries, k, error, answered)
    ensures var s := Statements(n, queries, started);
      && s.outcome == Failed(error) && s.started == (started || answered > 0)
      && answered <= |n.host.script| && s.net.host.script == n.host.script[answered..]
    decreases k
  {
    var script := n.host.script;
    assert script[0..] == script;
    if k > 0 {
      assert queries[0] == queries[..k][0];
      assert queries[1..][..k - 1] == queries[..k][1..];
      assert forall i :: 0 <= i < k - 1 ==> queries[..k][1..][i] == queries[..k][i + 1];
      StatementsFail(Submit(n, queries[0].sql), queries[1..], true, k - 1, error, answered - 1);
      assert script[1..][answered - 1..] == script[answered..];
    }
  }

  /**
   * A transaction that fails at one of its statements is rolled back: it replies with the statement's error when the
   * rollback succeeds, with a disconnect when that fails, and not at all when it is not answered.
   */
  lemma TransactionFails(n: Net, queries: seq<Query>, k: nat, error: SqlError, answered: nat)
    requires EndAt(n.host.script, 0).Done? && FailsAt(n.host.script[1..], queries, k, error, answered)
    ensures var s := Transaction(n, queries);
      && s.started == (answered > 0)
      && s.outcome == match EndAt(n.host.script, answered + 1)
         case Done => Failed(error)
         case Fails(e, _) => Replied(DisconnectedError(e))
         case Silent(_) => Elapsed
  {
    StatementsFail(Begin(n), queries, false, k, error, answered);
  }

  /** A transaction that cannot begin has started no statement. */
  lemma TransactionCannotBegin(n: Net, queries: seq<Query>)
    requires !EndAt(n.host.script, 0).Done?
    ensures var s := Transaction(n, queries);
      && !s.started && s.net.host.submissions == n.host.submissions
      && s.outcome == if EndAt(n.host.script, 0).Fails? then Failed(EndAt(n.host.script, 0).error) else Elapsed
  {
  }

  // The replies of an actor that has a connection

  /** A query that can be sent and is answered replies with the number of its rows, or says that they are too many. */
  lemma QueryReplies(a: Actor, query: Query, maxRows: nat)
    requires a.backend.Some?
    ensures var (r, a') := Serve(a, QueryOp(query), maxRows); var answer := Next(a.host);
      && (!query.bindable ==> r == ErrorBeforeExecution(Local) && a'.host.submissions == a.host.submissions)
      && (query.bindable && answer.rows > maxRows ==> r == RowLimitExceeded(maxRows) && a'.backend.None?)
      && (query.bindable && answer.rows <= maxRows ==> match answer.end
            case Done => r == Rows(answer.rows)
            case Fails(error, _) => r == Error(error)
            case Silent(_) => r == Timeout)
  {
  }

  /** And its statements are in effect when it is answered with success on a clean connection, which is kept. */
  lemma SuccessTakesEffect(a: Actor, op: Operation, maxRows: nat)
    requires Sound(a) && a.backend.Some? && !op.TransactionOp? && Next(a.host).end.Done?
    requires op.QueryOp? ==> op.query.bindable && Next(a.host).rows <= maxRows
    requires op.ExecuteOp? ==> op.query.bindable
    ensures var (r, a') := Serve(a, op, maxRows);
      && r == (if op.QueryOp? then Rows(Next(a.host).rows) else Executed)
      && a'.host.committed == a.host.committed + AtOnce(op)
      && a'.backend == a.backend
  {
    assert AtOnce(op)[..|AtOnce(op)|] == AtOnce(op);
  }

  /** The reply to an execute or a batch. */
  lemma ExecuteReplies(a: Actor, op: Operation, maxRows: nat)
    requires a.backend.Some? && (op.ExecuteOp? || op.BatchOp?)
    ensures var (r, a') := Serve(a, op, maxRows);
      if op.ExecuteOp? && !op.query.bindable then r == ErrorBeforeExecution(Local) && a'.host.submissions == a.host.submissions
      else match Next(a.host).end
        case Done => r == Executed
        case Fails(error, _) => r == Error(error)
        case Silent(_) => r == Timeout
  {
  }

  /** The reply to a transaction: done exactly when everything succeeds. */
  lemma TransactionIsDoneExactly(a: Actor, queries: seq<Query>, maxRows: nat)
    requires Sound(a) && a.backend.Some?
    ensures var (r, a') := Serve(a, TransactionOp(queries), maxRows);
      && (r == TransactionDone <==> Bindable(queries) && AllDone(a.host.script, |queries| + 2))
      && (r == TransactionDone ==> a'.host.committed == a.host.committed + Sqls(queries) && a'.backend.Some?)
  {
    TransactionSucceedsExactly(Net(a.host, a.backend.value), queries);
    TransactionReplies(a, queries, maxRows);
  }

  /** The reply when one of its statements fails: its own error when it could be rolled back, and the connection is kept unless the error is fatal. */
  lemma TransactionErrorIsReplied(a: Actor, queries: seq<Query>, maxRows: nat, k: nat, error: SqlError, answered: nat)
    requires a.backend.Some? && EndAt(a.host.script, 0).Done? && FailsAt(a.host.script[1..], queries, k, error, answered)
    requires EndAt(a.host.script, answered + 1).Done?
    ensures var (r, a') := Serve(a, TransactionOp(queries), maxRows);
      && r == (if answered > 0 then Error(error) else ErrorBeforeExecution(error))
      && (a'.backend.Some? <==> !Fatal(error))
  {
    TransactionFails(Net(a.host, a.backend.value), queries, k, error, answered);
  }

  // A lost connection

  /** The wait before the next attempt to connect is over. */
  predicate MayConnect(a: Actor) {
    a.retry.retryAt.None? || a.retry.retryAt.value <= a.host.now
  }

  /** The retry time is no further off than the longest delay that can be configured. */
  predicate NearRetry(a: Actor) {
    a.retry.retryAt.Some? ==> a.retry.retryAt.value <= a.host.now + 0xFFFF_FFFF * 1_000_000
  }

  /** An actor after the next answer has let it connect. */
  function Connected(a: Actor): Actor
    requires a.host.script != []
  {
    var answer := a.host.script[0];
    var now := a.host.now + answer.elapsed;
    a.(backend := Some(Session(a.host.sessions, false, [], false)),
       host := a.host.(script := a.host.script[1..], now := now, sessions := a.host.sessions + 1,
                       connects := a.host.connects + [Connect(a.host.now, now, true)]))
  }

  lemma NoWait(a: Actor)
    requires NearRetry(a)
    ensures RetryAfterMs(a.retry, a.host.now) == 0 <==> MayConnect(a)
  {
    if a.retry.retryAt.Some? {
      AdvertisesLeastWait(a.retry, a.host.now, 0);
    }
  }

  /** While the wait lasts, and only then, a request without a connection is told to come back, and nothing happens. */
  lemma CooldownExactly(a: Actor, op: Operation, maxRows: nat)
    requires NearRetry(a)
    ensures var (r, a') := Serve(a, op, maxRows);
      && (r.ReconnectCooldown? <==> a.backend.None? && !MayConnect(a))
      && (r.ReconnectCooldown? ==> a' == a)
  {
    NoWait(a);
    match a.backend
    case Some(session) => NoCooldown(a, a.host, session, op, maxRows);
    case None => NoCooldown(a, Attempted(a.host), NewSession(a), op, maxRows);
  }

  lemma NoCooldown(a: Actor, host: Host, session: Session, op: Operation, maxRows: nat)
    ensures var r := Perform(a, host, session, op, maxRows).0; !r.ReconnectCooldown? && !r.ConnectFailed?
  {
    if op.TransactionOp? {
      TransactionAnswers(Net(host, session), op.queries);
    }
  }

  /**
   * When the wait is over the next request makes one attempt to connect. Answered with success, the request is served
   * as by an actor that has a new clean connection; otherwise the reply is the attempt's error, and still no connection.
   */
  lemma ReconnectsExactly(a: Actor, op: Operation, maxRows: nat)
    requires a.backend.None? && NearRetry(a) && MayConnect(a)
    ensures var (r, a') := Serve(a, op, maxRows);
      && |a'.host.connects| == |a.host.connects| + 1 && a'.host.connects[..|a.host.connects|] == a.host.connects
      && (EndAt(a.host.script, 0).Done? ==> (r, a') == Serve(Connected(a), op, maxRows))
      && (!EndAt(a.host.script, 0).Done? ==>
        && r.ConnectFailed? && a'.backend.None? && a'.host.committed == a.host.committed
        && r.error == if EndAt(a.host.script, 0).Fails? then EndAt(a.host.script, 0).error else Io)
  {
    NoWait(a);
    if EndAt(a.host.script, 0).Done? {
      RunFollows(Net(Attempted(a.host), NewSession(a)), op, maxRows);
      ConnectedAttempts(a);
    }
  }

  lemma ConnectedAttempts(a: Actor)
    requires EndAt(a.host.script, 0).Done?
    ensures Connected(a).host == Attempted(a.host) && Connected(a).backend == Some(NewSession(a))
  {
  }

  /** An actor with a connection makes no attempt. */
  lemma ConnectedMakesNone(a: Actor, op: Operation, maxRows: nat)
    requires a.backend.Some?
    ensures Serve(a, op, maxRows).1.host.connects == a.host.connects
  {
    RunFollows(Net(a.host, a.backend.value), op, maxRows);
  }

  /** Every wait that is advertised is the least number of milliseconds after which the next attempt is made. */
  lemma WaitIsLeast(a: Actor, op: Operation, maxRows: nat, ms: nat)
    requires NearRetry(a) && Configured(a.retry)
    requires a.retry.delay <= a.retry.max
    ensures var (r, a') := Serve(a, op, maxRows);
      r.ReconnectCooldown? || r.ConnectFailed? ==>
        && a'.retry.retryAt.Some? && (r.retryAfterMs <= ms <==> MayConnect(Wait(a', ms * 1_000_000)))
  {
    NoWait(a);
    match a.backend
    case Some(session) => NoCooldown(a, a.host, session, op, maxRows);
    case None =>
      NoCooldown(a, Attempted(a.host), NewSession(a), op, maxRows);
      if !MayConnect(a) {
        AdvertisesLeastWait(a.retry, a.host.now, ms);
      } else {
        var host := Attempted(a.host);
        AdvertisesLeastWait(AfterFailure(a.retry, host.now), host.now, ms);
      }
  }

  /** All this holds in every run, whenever the next request comes: the retry time is never further off than it may be. */
  lemma {:induction false} RunIsNearRetry(actors: seq<Actor>, requests: seq<Request>, replies: seq<Response>, maxRows: nat, i: nat, pause: nat)
    requires Run(actors, requests, replies, maxRows) && i < |actors|
    ensures var a := Wait(actors[i], pause); NearRetry(a) && Configured(a.retry) && a.retry.delay <= a.retry.max
  {
    RunIsSpaced(actors, requests, replies, maxRows, i);
  }
}
