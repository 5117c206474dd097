/** What holds of every request an actor serves and of every run, whatever the database answers and whenever a deadline passes. */
module HandlerProofs {
  import opened Wrappers
  import opened Backend
  import opened Backoff
  import opened Handler

  /** The actor drops a connection exactly after the errors that are no refusals. */
  lemma FatalIsNoRefusal(e: SqlError)
    ensures Fatal(e) <==> !Refusal(e)
  {
    if e.Database? && e.code.Some? {
      var code := e.code.value;
      assert "08" <= code <==> |code| >= 2 && code[0] == '0' && code[1] == '8';
    }
  }

  /** No transaction is open and no answer is left unread. */
  predicate Clean(s: Session) {
    !s.open && s.pending == [] && !s.unread
  }

  /** All statements of the queries, in order. */
  function Sqls(queries: seq<Query>): seq<Statement> {
    if queries == [] then [] else queries[0].sql + Sqls(queries[1..])
  }

  predicate Bindable(queries: seq<Query>) {
    forall i :: 0 <= i < |queries| ==> queries[i].bindable
  }

  /** A request only ever adds to the history, and uses only its own connection. */
  predicate Follows(n: Net, n': Net) {
    && n'.session.id == n.session.id
    && n'.host.submissions >= n.host.submissions && n'.host.sessions == n.host.sessions
    && n'.host.now >= n.host.now && n'.host.connects == n.host.connects
    && |n'.host.uses| >= |n.host.uses| && n'.host.uses[..|n.host.uses|] == n.host.uses
    && forall i :: |n.host.uses| <= i < |n'.host.uses| ==> n'.host.uses[i] == n.session.id
  }

  // One transaction

  lemma {:induction false} StatementsFollow(n: Net, queries: seq<Query>, started: bool)
    ensures var s := Statements(n, queries, started);
      && Follows(n, s.net) && (started ==> s.started)
      && (started || s.started == (s.net.host.submissions > n.host.submissions))
    decreases |queries|
  {
    if queries != [] && queries[0].bindable && Next(n.host).end.Done? {
      StatementsFollow(Submit(n, queries[0].sql), queries[1..], true);
    }
  }

  /** Inside a transaction nothing is committed, and success means that every statement is pending, in order. */
  lemma {:induction false} StatementsInTransaction(n: Net, queries: seq<Query>, started: bool)
    requires n.session.open
    ensures var s := Statements(n, queries, started);
      && s.net.host.committed == n.host.committed && s.net.session.open
      && (s.outcome.Replied? ==> Bindable(queries) && s.net.session.pending == n.session.pending + Sqls(queries) && s.net.session.unread == n.session.unread)
      && (s.outcome.Failed? && !Fatal(s.outcome.error) ==> s.net.session.unread == n.session.unread)
    decreases |queries|
  {
    if queries != [] && queries[0].bindable && Next(n.host).end.Done? {
      var n' := Submit(n, queries[0].sql);
      StatementsInTransaction(n', queries[1..], true);
      assert queries[0].sql[..|queries[0].sql|] == queries[0].sql;
      assert n.session.pending + Sqls(queries) == n'.session.pending + Sqls(queries[1..]);
    }
  }

  lemma CommandsFollow(n: Net)
    ensures Follows(n, Begin(n)) && Begin(n).host.submissions == n.host.submissions
    ensures Follows(n, Commit(n)) && Commit(n).host.submissions == n.host.submissions
    ensures Follows(n, Rollback(n)) && Rollback(n).host.submissions == n.host.submissions
  {
  }

  lemma FollowsOnward(a: Net, b: Net, c: Net)
    requires Follows(a, b) && Follows(b, c)
    ensures Follows(a, c)
  {
    assert forall i :: 0 <= i < |a.host.uses| ==> c.host.uses[i] == b.host.uses[..|b.host.uses|][i];
    forall i | |a.host.uses| <= i < |c.host.uses| ensures c.host.uses[i] == a.session.id {
      assert i < |b.host.uses| ==> c.host.uses[i] == c.host.uses[..|b.host.uses|][i];
    }
  }

  lemma TransactionFollows(n: Net, queries: seq<Query>)
    ensures var s := Transaction(n, queries);
      Follows(n, s.net) && s.started == (s.net.host.submissions > n.host.submissions)
  {
    CommandsFollow(n);
    if Next(n.host).end.Done? {
      StatementsFollow(Begin(n), queries, false);
      var s := Statements(Begin(n), queries, false);
      FollowsOnward(n, Begin(n), s.net);
      CommandsFollow(s.net);
      FollowsOnward(n, s.net, Rollback(s.net));
      FollowsOnward(n, s.net, Commit(s.net));
    }
  }

  /**
   * A transaction is all or nothing whatever happens. Success means that all of it is committed; a plain
   * error means that none of it is, and the connection is clean unless the error is fatal.
   */
  lemma TransactionIsAtomic(n: Net, queries: seq<Query>)
    requires Clean(n.session)
    ensures var s := Transaction(n, queries);
      && (s.net.host.committed == n.host.committed || (s.net.host.committed == n.host.committed + Sqls(queries) && Bindable(queries)))
      && (s.outcome == Replied(TransactionDone) ==>
            Bindable(queries) && s.net.host.committed == n.host.committed + Sqls(queries) && Clean(s.net.session))
      && (s.outcome.Failed? ==> s.net.host.committed == n.host.committed && (!Fatal(s.outcome.error) ==> Clean(s.net.session)))
      && (s.outcome.Replied? ==> s.outcome.response.TransactionDone? || s.outcome.response.DisconnectedError?)
  {
    if Next(n.host).end.Done? {
      StatementsInTransaction(Begin(n), queries, false);
    }
  }

  lemma {:induction false} StatementsAnswer(n: Net, queries: seq<Query>, started: bool)
    ensures var s := Statements(n, queries, started); s.outcome.Replied? ==> s.outcome == Replied(TransactionDone)
    decreases |queries|
  {
    if queries != [] {
      StatementsAnswer(Submit(n, queries[0].sql), queries[1..], true);
    }
  }

  lemma TransactionAnswers(n: Net, queries: seq<Query>)
    ensures var s := Transaction(n, queries); s.outcome.Replied? ==> s.outcome.response.TransactionDone? || s.outcome.response.DisconnectedError?
  {
    StatementsAnswer(Begin(n), queries, false);
  }

  // One request

  lemma RunFollows(n: Net, op: Operation, maxRows: nat)
    ensures var s := RunOn(n, op, maxRows);
      Follows(n, s.net) && s.started == (s.net.host.submissions > n.host.submissions)
  {
    if op.TransactionOp? {
      TransactionFollows(n, op.queries);
    }
  }

  lemma RunLeavesClean(n: Net, op: Operation, maxRows: nat)
    requires Clean(n.session)
    ensures var s := RunOn(n, op, maxRows);
      !RequiresDisconnect(Classify(ResponseTo(s.outcome), s.started)) ==> Clean(s.net.session)
  {
    if op.TransactionOp? {
      TransactionIsAtomic(n, op.queries);
    }
  }

  predicate IsError(r: Response) {
    !r.Rows? && !r.Executed? && !r.TransactionDone?
  }

  /** The statements that a request other than a transaction hands to the driver at once. */
  function AtOnce(op: Operation): seq<Statement> {
    match op
    case QueryOp(query) => if query.bindable then query.sql else []
    case ExecuteOp(query) => if query.bindable then query.sql else []
    case BatchOp(statements) => statements
    case TransactionOp(_) => []
  }

  /** An error that keeps the connection has committed nothing, unless several statements went out at once. */
  lemma RunErrorCommitsNothing(n: Net, op: Operation, maxRows: nat)
    requires Clean(n.session) && |AtOnce(op)| <= 1
    ensures var s := RunOn(n, op, maxRows); var r := Classify(ResponseTo(s.outcome), s.started);
      IsError(r) && !RequiresDisconnect(r) ==> s.net.host.committed == n.host.committed
  {
    if op.TransactionOp? {
      TransactionIsAtomic(n, op.queries);
    }
  }

  // The actor

  function NewSession(a: Actor): Session {
    Session(a.host.sessions, false, [], false)
  }

  ghost predicate Sound(a: Actor) {
    && (a.backend.Some? ==> Clean(a.backend.value) && a.backend.value.id < a.host.sessions && a.backend.value.id !in a.retired)
    && (forall id :: id in a.retired ==> id < a.host.sessions)
  }

  lemma PerformFacts(a: Actor, host: Host, session: Session, op: Operation, maxRows: nat)
    requires Clean(session) && session.id < host.sessions && session.id !in a.retired
    requires forall id :: id in a.retired ==> id < host.sessions
    ensures var (r, a') := Perform(a, host, session, op, maxRows);
      && Sound(a') && a.retired <= a'.retired && Follows(Net(host, session), Net(a'.host, session))
      && (a'.backend.Some? ==> a'.backend.value.id == session.id)
  {
    RunFollows(Net(host, session), op, maxRows);
    RunLeavesClean(Net(host, session), op, maxRows);
  }

  /** Every connection that is kept is clean, is not a retired one, and stays within those opened. */
  lemma ServeKeepsSound(a: Actor, op: Operation, maxRows: nat)
    requires Sound(a)
    ensures Sound(Serve(a, op, maxRows).1) && a.retired <= Serve(a, op, maxRows).1.retired
  {
    match a.backend
    case Some(session) => PerformFacts(a, a.host, session, op, maxRows);
    case None =>
      if Next(a.host).end.Done? {
        PerformFacts(a, Attempted(a.host), NewSession(a), op, maxRows);
      }
  }

  lemma PerformSays(a: Actor, host: Host, session: Session, op: Operation, maxRows: nat)
    ensures var (r, a') := Perform(a, host, session, op, maxRows);
      NotExecuted(r) <==> IsError(r) && !r.DisconnectedError? && !r.RowLimitExceeded? && a'.host.submissions == host.submissions
  {
    var n := Net(host, session);
    RunFollows(n, op, maxRows);
    if op.TransactionOp? {
      TransactionAnswers(n, op.queries);
    }
  }

  /**
   * A reply says that nothing was executed only when no business statement of the request was ever handed
   * to the driver, and says so of every such error but a failed rollback or commit.
   */
  lemma NotExecutedExactly(a: Actor, op: Operation, maxRows: nat)
    ensures var (r, a') := Serve(a, op, maxRows);
      NotExecuted(r) <==> IsError(r) && !r.DisconnectedError? && !r.RowLimitExceeded? && a'.host.submissions == a.host.submissions
  {
    match a.backend
    case Some(session) => PerformSays(a, a.host, session, op, maxRows);
    case None => PerformSays(a, Attempted(a.host), NewSession(a), op, maxRows);
  }

  /** A transaction that submits nothing even when all goes well: it has no statement, or cannot bind its first. */
  predicate SubmitsNothing(op: Operation) {
    op.TransactionOp? && (op.queries == [] || !op.queries[0].bindable)
  }

  /** If the reply is an error and nothing was submitted, the reply says so. */
  predicate SaysNotExecuted(a: Actor, op: Operation, maxRows: nat) {
    var (r, a') := Serve(a, op, maxRows);
    IsError(r) && a'.host.submissions == a.host.submissions ==> NotExecuted(r)
  }

  lemma StatementsSubmit(n: Net, queries: seq<Query>, started: bool)
    requires queries != [] && queries[0].bindable
    ensures Statements(n, queries, started).net.host.submissions > n.host.submissions
  {
    if Next(n.host).end.Done? {
      StatementsFollow(Submit(n, queries[0].sql), queries[1..], true);
    }
  }

  /** A disconnect is only reported after the first statement of a transaction has been submitted. */
  lemma DisconnectAfterSubmission(n: Net, op: Operation, maxRows: nat)
    requires !SubmitsNothing(op)
    ensures var s := RunOn(n, op, maxRows);
      s.outcome.Replied? && s.outcome.response.DisconnectedError? ==> s.net.host.submissions > n.host.submissions
  {
    if op.TransactionOp? {
      StatementsSubmit(Begin(n), op.queries, false);
    }
  }

  lemma PerformSaysNotExecuted(a: Actor, host: Host, session: Session, op: Operation, maxRows: nat)
    requires !SubmitsNothing(op)
    ensures var (r, a') := Perform(a, host, session, op, maxRows);
      IsError(r) && a'.host.submissions == host.submissions ==> NotExecuted(r)
  {
    PerformSays(a, host, session, op, maxRows);
    DisconnectAfterSubmission(Net(host, session), op, maxRows);
  }

  lemma RequestSaysNotExecuted(a: Actor, op: Operation, maxRows: nat)
    requires !SubmitsNothing(op)
    ensures SaysNotExecuted(a, op, maxRows)
  {
    match a.backend
    case Some(session) => PerformSaysNotExecuted(a, a.host, session, op, maxRows);
    case None => PerformSaysNotExecuted(a, Attempted(a.host), NewSession(a), op, maxRows);
  }

  /** An actor whose connection answers in this way. */
  function Answering(script: seq<Answer>): Actor {
    Actor(Host([], script, 0, 1, 0, [], []), Some(Session(0, false, [], false)), Retry(1, 1, 0, None), {})
  }

  /** Every transaction that submits nothing can leave no trace and its reply not say so: its rollback or commit fails. */
  lemma NotExecutedIsNotAlwaysSaid(op: Operation, maxRows: nat) returns (a: Actor)
    requires SubmitsNothing(op)
    ensures Sound(a) && !SaysNotExecuted(a, op, maxRows)
  {
    var script := [Answer(0, Done, 0, 0), Answer(0, Fails(Io, false), 0, 0)];
    a := Answering(script);
    var n := Net(a.host, a.backend.value);
    assert Begin(n).host.script == [script[1]] && Begin(n).host.submissions == 0;
    assert Statements(Begin(n), op.queries, false)
      == Served(if op.queries == [] then Replied(TransactionDone) else Failed(Local), Begin(n), false);
    assert Next(Begin(n).host).end == Fails(Io, false);
    assert Transaction(n, op.queries).outcome == Replied(DisconnectedError(Io));
    assert Serve(a, op, maxRows).0 == DisconnectedError(Io);
  }

  /**
   * Which requests can be trusted to say that nothing was executed, on every sound actor and whatever its
   * database answers: all but the transactions that submit nothing anyway.
   */
  lemma NotExecutedIsSaidExactly(op: Operation, maxRows: nat)
    ensures (forall a: Actor :: Sound(a) ==> SaysNotExecuted(a, op, maxRows)) <==> !SubmitsNothing(op)
  {
    if SubmitsNothing(op) {
      var a := NotExecutedIsNotAlwaysSaid(op, maxRows);
    } else {
      forall a: Actor | Sound(a) ensures SaysNotExecuted(a, op, maxRows) {
        RequestSaysNotExecuted(a, op, maxRows);
      }
    }
  }

  /** What a reply to a transaction says of the statements in effect before and after. */
  predicate SaysAll(r: Response, kept: bool, queries: seq<Query>, before: seq<Statement>, after: seq<Statement>) {
    && (r == TransactionDone ==> Bindable(queries) && kept && after == before + Sqls(queries))
    && (r != TransactionDone && kept ==> after == before)
    && (after == before || after == before + Sqls(queries))
  }

  lemma PerformSaysAll(a: Actor, host: Host, session: Session, queries: seq<Query>, maxRows: nat)
    requires Clean(session)
    ensures var (r, a') := Perform(a, host, session, TransactionOp(queries), maxRows);
      SaysAll(r, a'.backend.Some?, queries, host.committed, a'.host.committed)
  {
    TransactionIsAtomic(Net(host, session), queries);
  }

  /** The reply to a transaction and the connection that is left. */
  lemma TransactionReplies(a: Actor, queries: seq<Query>, maxRows: nat)
    requires Sound(a)
    ensures var (r, a') := Serve(a, TransactionOp(queries), maxRows);
      SaysAll(r, a'.backend.Some?, queries, a.host.committed, a'.host.committed)
  {
    match a.backend
    case Some(session) => PerformSaysAll(a, a.host, session, queries, maxRows);
    case None => PerformSaysAll(a, Attempted(a.host), NewSession(a), queries, maxRows);
  }

  /** An error that keeps the connection has changed nothing. */
  predicate ErrorChangesNothing(a: Actor, op: Operation, maxRows: nat) {
    var (r, a') := Serve(a, op, maxRows);
    IsError(r) && a'.backend.Some? ==> a'.host.committed == a.host.committed
  }

  /** So it is for every transaction, and for every request that hands out at most one statement. */
  lemma ErrorThatKeepsTheConnection(a: Actor, op: Operation, maxRows: nat)
    requires Sound(a) && |AtOnce(op)| <= 1
    ensures ErrorChangesNothing(a, op, maxRows)
  {
    match a.backend
    case Some(session) => RunErrorCommitsNothing(Net(a.host, session), op, maxRows);
    case None => RunErrorCommitsNothing(Net(Attempted(a.host), NewSession(a)), op, maxRows);
  }

  predicate IsPrefix(before: seq<Statement>, after: seq<Statement>, statements: seq<Statement>, k: nat)
    requires k <= |statements|
  {
    after == before + statements[..k]
  }

  /** Some of the first statements, but not all if there are any. */
  ghost predicate Part(before: seq<Statement>, after: seq<Statement>, statements: seq<Statement>) {
    exists k: nat :: k <= |statements| && (statements != [] ==> k < |statements|) && IsPrefix(before, after, statements, k)
  }

  lemma PerformLeavesPart(a: Actor, host: Host, session: Session, op: Operation, maxRows: nat)
    requires Clean(session)
    ensures var (r, a') := Perform(a, host, session, op, maxRows);
      IsError(r) && a'.backend.Some? ==> Part(host.committed, a'.host.committed, AtOnce(op))
  {
    var (r, a') := Perform(a, host, session, op, maxRows);
    if op.TransactionOp? || AtOnce(op) == [] {
      RunErrorCommitsNothing(Net(host, session), op, maxRows);
      assert host.committed + [] == host.committed;
      assert IsError(r) && a'.backend.Some? ==> IsPrefix(host.committed, a'.host.committed, AtOnce(op), 0);
    } else {
      var k := Standing(Next(host), |AtOnce(op)|);
      assert IsPrefix(host.committed, a'.host.committed, AtOnce(op), k);
    }
  }

  /** A request that fails and keeps the connection, also a new one, leaves some of its first statements but never all. */
  lemma ErrorLeavesPart(a: Actor, op: Operation, maxRows: nat)
    requires Sound(a)
    ensures var (r, a') := Serve(a, op, maxRows);
      IsError(r) && a'.backend.Some? ==> Part(a.host.committed, a'.host.committed, AtOnce(op))
  {
    match a.backend
    case Some(session) => PerformLeavesPart(a, a.host, session, op, maxRows);
    case None => PerformLeavesPart(a, Attempted(a.host), NewSession(a), op, maxRows);
  }

  /** The first of several statements can stand after the second was refused. */
  lemma SeveralCanChangeSomething(op: Operation, maxRows: nat) returns (a: Actor)
    requires |AtOnce(op)| > 1
    ensures Sound(a) && !ErrorChangesNothing(a, op, maxRows)
  {
    a := Answering([Answer(0, Fails(Local, false), 1, 0)]);
    var a' := Serve(a, op, maxRows).1;
    assert Standing(Next(a.host), |AtOnce(op)|) == 1;
    assert a'.host.committed == [] + AtOnce(op)[..1];
  }

  /**
   * Which requests can be repeated after an error that keeps the connection, on every sound actor and
   * whatever its database answers: transactions, and all that hand out at most one statement.
   */
  lemma ErrorChangesNothingExactly(op: Operation, maxRows: nat)
    ensures (forall a: Actor :: Sound(a) ==> ErrorChangesNothing(a, op, maxRows)) <==> |AtOnce(op)| <= 1
  {
    if |AtOnce(op)| > 1 {
      var a := SeveralCanChangeSomething(op, maxRows);
    } else {
      forall a: Actor | Sound(a) ensures ErrorChangesNothing(a, op, maxRows) {
        ErrorThatKeepsTheConnection(a, op, maxRows);
      }
    }
  }

  /** No command goes to a retired connection, and no reply makes one come back. */
  lemma RetiredIsNotUsed(a: Actor, op: Operation, maxRows: nat)
    requires Sound(a)
    ensures var a' := Serve(a, op, maxRows).1;
      && |a'.host.uses| >= |a.host.uses| && a'.host.uses[..|a.host.uses|] == a.host.uses
      && forall i :: |a.host.uses| <= i < |a'.host.uses| ==> a'.host.uses[i] !in a.retired
  {
    match a.backend
    case Some(session) => PerformFacts(a, a.host, session, op, maxRows);
    case None =>
      if Next(a.host).end.Done? {
        PerformFacts(a, Attempted(a.host), NewSession(a), op, maxRows);
      }
  }

  // Runs: requests arrive after arbitrary pauses.

  datatype Request = Request(pause: nat, op: Operation)

  ghost predicate Run(actors: seq<Actor>, requests: seq<Request>, replies: seq<Response>, maxRows: nat) {
    && |actors| == |requests| + 1 == |replies| + 1
    && Starting(actors[0])
    && forall i :: 0 <= i < |requests| ==> Turn(actors[i], requests[i], replies[i], actors[i + 1], maxRows)
  }

  /** An actor just after its connection was made, with the options that connect accepts. */
  ghost predicate Starting(a: Actor) {
    && a.backend.Some? && Clean(a.backend.value) && a.backend.value.id < a.host.sessions
    && a.retired == {} && a.host.connects == []
    && Configured(a.retry) && a.retry.delay == 0 && a.retry.retryAt.None?
  }

  ghost predicate Turn(a: Actor, request: Request, reply: Response, a': Actor, maxRows: nat) {
    (reply, a') == Serve(Wait(a, request.pause), request.op, maxRows)
  }

  lemma {:induction false} RunStaysSound(actors: seq<Actor>, requests: seq<Request>, replies: seq<Response>, maxRows: nat, i: nat)
    requires Run(actors, requests, replies, maxRows) && i < |actors|
    ensures Sound(actors[i])
  {
    if i > 0 {
      var k := i - 1;
      RunStaysSound(actors, requests, replies, maxRows, k);
      assert Turn(actors[k], requests[k], replies[k], actors[k + 1], maxRows);
      ServeKeepsSound(Wait(actors[k], requests[k].pause), requests[k].op, maxRows);
    }
  }

  ghost predicate AvoidsRetired(a: Actor, a': Actor) {
    && |a'.host.uses| >= |a.host.uses| && a.retired <= a'.retired
    && forall i :: |a.host.uses| <= i < |a'.host.uses| ==> a'.host.uses[i] !in a.retired
  }

  /** Over a whole run, no command goes to a connection retired before it. */
  lemma {:induction false} RunAvoidsRetired(actors: seq<Actor>, requests: seq<Request>, replies: seq<Response>, maxRows: nat, i: nat, j: nat)
    requires Run(actors, requests, replies, maxRows) && i <= j < |actors|
    ensures AvoidsRetired(actors[i], actors[j])
    decreases j
  {
    if i < j {
      var k := j - 1;
      RunAvoidsRetired(actors, requests, replies, maxRows, i, k);
      RunStaysSound(actors, requests, replies, maxRows, k);
      assert Turn(actors[k], requests[k], replies[k], actors[k + 1], maxRows);
      ServeKeepsSound(Wait(actors[k], requests[k].pause), requests[k].op, maxRows);
      RetiredIsNotUsed(Wait(actors[k], requests[k].pause), requests[k].op, maxRows);
      assert forall u :: 0 <= u < |actors[k].host.uses| ==> actors[j].host.uses[u] == actors[j].host.uses[..|actors[k].host.uses|][u];
    }
  }

  // Outages

  /** How many reconnect attempts in a row have failed, up to the given one. */
  function Streak(c: seq<Connect>, i: nat): nat
    requires i < |c|
  {
    if c[i].ok then 0 else 1 + if i > 0 then Streak(c, i - 1) else 0
  }

  function Failing(c: seq<Connect>): nat {
    if c == [] then 0 else Streak(c, |c| - 1)
  }

  /** After a failure the next attempt starts no earlier than the delay of that failure allows. */
  ghost predicate Spaced(c: seq<Connect>, initial: nat, max: nat) {
    && (forall i :: 0 <= i < |c| ==> c[i].startedAt <= c[i].endedAt)
    && (forall i :: 0 <= i < |c| - 1 && !c[i].ok ==> c[i + 1].startedAt >= c[i].endedAt + DelayOf(initial, max, Streak(c, i)))
  }

  ghost predicate BackoffAgrees(a: Actor) {
    var c := a.host.connects;
    var r := a.retry;
    && Configured(r) && Spaced(c, r.initial, r.max)
    && (c != [] ==> c[|c| - 1].endedAt <= a.host.now)
    && (a.backend.Some? ==> Failing(c) == 0)
    && (if Failing(c) == 0 then r.delay == 0 && r.retryAt.None?
        else r.delay == DelayOf(r.initial, r.max, Failing(c)) && r.retryAt == Some(c[|c| - 1].endedAt + r.delay))
  }

  lemma {:induction false} StreakOfPrefix(c: seq<Connect>, more: Connect, i: nat)
    requires i < |c|
    ensures Streak(c + [more], i) == Streak(c, i)
  {
    if !c[i].ok && i > 0 {
      StreakOfPrefix(c, more, i - 1);
    }
  }

  lemma AttemptKeepsSpacing(a: Actor)
    requires BackoffAgrees(a) && RetryAfterMs(a.retry, a.host.now) == 0
    ensures var h := Attempted(a.host);
      && Spaced(h.connects, a.retry.initial, a.retry.max) && h.connects[|h.connects| - 1].endedAt == h.now
      && Failing(h.connects) == if Next(a.host).end.Done? then 0 else Failing(a.host.connects) + 1
  {
    var c, more := a.host.connects, Connect(a.host.now, Rest(a.host).now, Next(a.host).end.Done?);
    if a.retry.retryAt.Some? {
      AdvertisesLeastWait(a.retry, a.host.now, 0);
    }
    forall i | 0 <= i < |c| ensures Streak(c + [more], i) == Streak(c, i) {
      StreakOfPrefix(c, more, i);
    }
  }

  lemma AttemptKeepsBackoff(a: Actor, op: Operation, maxRows: nat)
    requires BackoffAgrees(a) && a.backend.None? && RetryAfterMs(a.retry, a.host.now) == 0
    ensures BackoffAgrees(Reconnect(a, op, maxRows).1)
  {
    AttemptKeepsSpacing(a);
    if Next(a.host).end.Done? {
      RunFollows(Net(Attempted(a.host), NewSession(a)), op, maxRows);
    } else {
      DelaysDouble(a.retry, Failing(a.host.connects), Rest(a.host).now);
    }
  }

  lemma ServeKeepsBackoff(a: Actor, op: Operation, maxRows: nat)
    requires BackoffAgrees(a)
    ensures BackoffAgrees(Serve(a, op, maxRows).1)
  {
    match a.backend
    case Some(session) => RunFollows(Net(a.host, session), op, maxRows);
    case None =>
      if RetryAfterMs(a.retry, a.host.now) == 0 {
        AttemptKeepsBackoff(a, op, maxRows);
      }
  }

  /** At every moment of every run the attempts so far are spaced by the doubling, capped delays. */
  lemma {:induction false} RunIsSpaced(actors: seq<Actor>, requests: seq<Request>, replies: seq<Response>, maxRows: nat, i: nat)
    requires Run(actors, requests, replies, maxRows) && i < |actors|
    ensures BackoffAgrees(actors[i])
  {
    if i > 0 {
      var k := i - 1;
      RunIsSpaced(actors, requests, replies, maxRows, k);
      assert Turn(actors[k], requests[k], replies[k], actors[k + 1], maxRows);
      ServeKeepsBackoff(Wait(actors[k], requests[k].pause), requests[k].op, maxRows);
    }
  }

  /** The delays of the first failures of an outage together. */
  function TotalDelay(initial: nat, max: nat, failures: nat): nat {
    if failures == 0 then 0 else TotalDelay(initial, max, failures - 1) + DelayOf(initial, max, failures)
  }

  /** An outage of several failures in a row lasts at least as long as the delays between them. */
  lemma {:induction false} OutageLasts(c: seq<Connect>, initial: nat, max: nat, first: nat, last: nat)
    requires Spaced(c, initial, max) && first <= last < |c| && Streak(c, first) == 1
    requires forall i :: first <= i <= last ==> !c[i].ok
    ensures c[last].endedAt >= c[first].startedAt + TotalDelay(initial, max, last - first)
    ensures Streak(c, last) == last - first + 1
    decreases last
  {
    if first < last {
      OutageLasts(c, initial, max, first, last - 1);
      assert c[last - 1 + 1].startedAt >= c[last - 1].endedAt + DelayOf(initial, max, Streak(c, last - 1));
    }
  }
}
