/**
 * The request queue of one connection actor: callers that count and send, closers, the handler that
 * receives, works and replies. Every atomic access of the source is a step, and steps interleave freely.
 */
module RequestQueue {
  type RequestId = int
  type CloserId = int

  datatype Message = Request(id: RequestId) | Close

  datatype Handler =
    | Receiving
    | Working(id: RequestId)   // the request runs
    | Replying(id: RequestId)  // the counter is down, the reply not yet sent
    | Drained                  // the receive loop has ended
    | Closed                   // the connection is closed and all who wait are told

  /** A call to send a request: before it looks at the closing flag, after that, with the counter raised, and refused with the counter still up. */
  datatype Call = Called | Admitted | Counted | Refused

  /** A call to close: before it raises the flag, while it must still send its message, waiting for the end, having reported it. */
  datatype Closer = Asked | Sending | Waiting | Told

  /** The channel and the handler that reads it. */
  datatype Channel = Channel(
    queue: seq<Message>,
    receiverClosed: bool,
    handler: Handler,
    accepted: seq<RequestId>,  // history: requests sent, in order
    executed: seq<RequestId>,  // history: requests whose execution has begun
    finished: seq<RequestId>,  // history: requests replied to
    closes: nat                // history: Close messages sent
  )

  datatype State = State(
    capacity: nat,
    ch: Channel,
    counter: int,
    closing: bool,
    handles: nat,                    // connection handles besides those of the calls below
    calls: map<RequestId, Call>,
    closers: map<CloserId, Closer>,
    used: set<RequestId>             // history: requests ever made
  )

  predicate Init(s: State) {
    && s.capacity > 0 && s.ch == Channel([], false, Receiving, [], [], [], 0)
    && s.counter == 0 && !s.closing && s.calls == map[] && s.closers == map[] && s.used == {}
  }

  /** Nobody holds the sending half: no handle, no call in progress, no closer that has not sent its message. */
  predicate NoSenders(s: State) {
    s.handles == 0 && s.calls == map[] && forall c :: c in s.closers ==> s.closers[c].Waiting? || s.closers[c].Told?
  }

  datatype Step =
    | AddHandle | DropHandle
    | MakeCall(id: RequestId) | ReadFlag(id: RequestId) | FailCall(id: RequestId)
    | CountUp(id: RequestId) | TrySend(id: RequestId) | Uncount(id: RequestId)
    | StartClose(closer: CloserId) | RaiseFlag(closer: CloserId) | SendClose(closer: CloserId) | ReportClosed(closer: CloserId)
    | Receive | CountDown | Reply | EndLoop | Announce

  predicate Enabled(s: State, step: Step) {
    match step
    case AddHandle => !NoSenders(s)
    case DropHandle => s.handles > 0
    case MakeCall(id) => id !in s.used && !NoSenders(s)
    case ReadFlag(id) => id in s.calls && s.calls[id].Called?
    case FailCall(id) => id in s.calls && (s.calls[id].Called? || s.calls[id].Admitted?) // an argument or the response lease fails
    case CountUp(id) => id in s.calls && s.calls[id].Admitted?
    case TrySend(id) => id in s.calls && s.calls[id].Counted?
    case Uncount(id) => id in s.calls && s.calls[id].Refused?
    case StartClose(c) => c !in s.closers && !NoSenders(s)
    case RaiseFlag(c) => c in s.closers && s.closers[c].Asked?
    case SendClose(c) => c in s.closers && s.closers[c].Sending? && (s.ch.receiverClosed || |s.ch.queue| < s.capacity)
    case ReportClosed(c) => c in s.closers && s.closers[c].Waiting? && s.ch.handler.Closed?
    case Receive => s.ch.handler.Receiving? && s.ch.queue != []
    case CountDown => s.ch.handler.Working?
    case Reply => s.ch.handler.Replying?
    case EndLoop => s.ch.handler.Receiving? && s.ch.queue == [] && (s.ch.receiverClosed || NoSenders(s))
    case Announce => s.ch.handler.Drained?
  }

  /** try_send fails on a closed channel and on a full one. */
  predicate CanSend(s: State) {
    !s.ch.receiverClosed && |s.ch.queue| < s.capacity
  }

  function Accept(ch: Channel, id: RequestId): Channel {
    ch.(queue := ch.queue + [Request(id)], accepted := ch.accepted + [id])
  }

  function AcceptClose(ch: Channel): Channel {
    ch.(queue := ch.queue + [Close], closes := ch.closes + 1)
  }

  function Take(ch: Channel): Channel
    requires ch.queue != []
  {
    match ch.queue[0]
    case Close => ch.(queue := ch.queue[1..], receiverClosed := true)
    case Request(id) => ch.(queue := ch.queue[1..], handler := Working(id), executed := ch.executed + [id])
  }

  function Next(s: State, step: Step): State
    requires Enabled(s, step)
  {
    match step
    case AddHandle => s.(handles := s.handles + 1)
    case DropHandle => s.(handles := s.handles - 1)
    case MakeCall(id) => s.(calls := s.calls[id := Called], used := s.used + {id})
    case ReadFlag(id) => s.(calls := if s.closing then s.calls - {id} else s.calls[id := Admitted])
    case FailCall(id) => s.(calls := s.calls - {id})
    case CountUp(id) => s.(calls := s.calls[id := Counted], counter := s.counter + 1)
    case TrySend(id) =>
      if CanSend(s) then s.(calls := s.calls - {id}, ch := Accept(s.ch, id)) else s.(calls := s.calls[id := Refused])
    case Uncount(id) => s.(calls := s.calls - {id}, counter := s.counter - 1)
    case StartClose(c) => s.(closers := s.closers[c := Asked])
    case RaiseFlag(c) => s.(closers := s.closers[c := if s.closing then Waiting else Sending], closing := true)
    case SendClose(c) => s.(closers := s.closers[c := Waiting], ch := if s.ch.receiverClosed then s.ch else AcceptClose(s.ch))
    case ReportClosed(c) => s.(closers := s.closers[c := Told])
    case Receive => s.(ch := Take(s.ch))
    case CountDown => s.(ch := s.ch.(handler := Replying(s.ch.handler.id)), counter := s.counter - 1)
    case Reply => s.(ch := s.ch.(handler := Receiving, finished := s.ch.finished + [s.ch.handler.id]))
    case EndLoop => s.(ch := s.ch.(handler := Drained))
    case Announce => s.(ch := s.ch.(handler := Closed))
  }

  // What every step keeps.

  function Requests(queue: seq<Message>): seq<RequestId> {
    if queue == [] then []
    else (if queue[0].Request? then [queue[0].id] else []) + Requests(queue[1..])
  }

  function Closes(queue: seq<Message>): nat {
    if queue == [] then 0 else (if queue[0].Close? then 1 else 0) + Closes(queue[1..])
  }

  function InHand(h: Handler): seq<RequestId> {
    if h.Working? || h.Replying? then [h.id] else []
  }

  /** The calls that have raised the counter and not lowered it. */
  function Raised(calls: map<RequestId, Call>): set<RequestId> {
    set id | id in calls && IsRaised(calls[id])
  }

  /** Requests are executed and finished in the order in which they were accepted, one at a time. */
  predicate InOrder(ch: Channel) {
    && ch.accepted == ch.finished + InHand(ch.handler) + Requests(ch.queue)
    && ch.executed == ch.finished + InHand(ch.handler)
  }

  predicate Counts(counter: int, ch: Channel, calls: map<RequestId, Call>) {
    counter == |Requests(ch.queue)| + (if ch.handler.Working? then 1 else 0) + |Raised(calls)|
  }

  predicate Named(used: set<RequestId>, calls: map<RequestId, Call>, accepted: seq<RequestId>) {
    && calls.Keys <= used
    && (forall i :: 0 <= i < |accepted| ==> accepted[i] in used && accepted[i] !in calls)
    && (forall i, j :: 0 <= i < j < |accepted| ==> accepted[i] != accepted[j])
  }

  /** At most one Close message is ever sent, and only after the flag is up. */
  predicate ClosesOnce(ch: Channel, closing: bool, closers: map<CloserId, Closer>) {
    && Closes(ch.queue) + (if ch.receiverClosed then 1 else 0) == ch.closes <= 1
    && (ch.closes == 1 ==> closing && forall c :: c in closers ==> !closers[c].Sending?)
    && (forall c :: c in closers && closers[c].Sending? ==> closing)
    && (forall c, d :: c in closers && d in closers && closers[c].Sending? && closers[d].Sending? ==> c == d)
  }

  predicate EndsEmpty(s: State) {
    && (s.ch.handler.Drained? || s.ch.handler.Closed? ==> s.ch.queue == [] && (s.ch.receiverClosed || NoSenders(s)))
    && (forall c :: c in s.closers && s.closers[c].Told? ==> s.ch.handler.Closed?)
  }

  predicate Inv(s: State) {
    InOrder(s.ch) && Counts(s.counter, s.ch, s.calls) && Named(s.used, s.calls, s.ch.accepted) && ClosesOnce(s.ch, s.closing, s.closers) && EndsEmpty(s)
  }

  lemma {:induction false} QueueGrows(queue: seq<Message>, m: Message)
    ensures Requests(queue + [m]) == Requests(queue) + if m.Request? then [m.id] else []
    ensures Closes(queue + [m]) == Closes(queue) + if m.Close? then 1 else 0
  {
    if queue == [] {
      assert queue + [m] == [m];
    } else {
      QueueGrows(queue[1..], m);
      assert (queue + [m])[1..] == queue[1..] + [m];
    }
  }

  lemma InitHasInv(s: State)
    requires Init(s)
    ensures Inv(s)
  {
  }

  lemma AcceptKeepsOrder(ch: Channel, id: RequestId)
    requires InOrder(ch)
    ensures InOrder(Accept(ch, id)) && InOrder(AcceptClose(ch))
    ensures Requests(Accept(ch, id).queue) == Requests(ch.queue) + [id] && Requests(AcceptClose(ch).queue) == Requests(ch.queue)
  {
    QueueGrows(ch.queue, Request(id));
    QueueGrows(ch.queue, Close);
  }

  lemma TakeKeepsOrder(ch: Channel)
    requires InOrder(ch) && ch.handler.Receiving? && ch.queue != []
    ensures InOrder(Take(ch))
    ensures |Requests(Take(ch).queue)| + (if Take(ch).handler.Working? then 1 else 0) == |Requests(ch.queue)|
  {
  }

  predicate IsRaised(call: Call) {
    call.Counted? || call.Refused?
  }

  lemma RaisedSet(calls: map<RequestId, Call>, id: RequestId, call: Call)
    ensures |Raised(calls[id := call])| == |Raised(calls) - {id}| + if IsRaised(call) then 1 else 0
  {
    assert Raised(calls[id := call]) == (Raised(calls) - {id}) + if IsRaised(call) then {id} else {};
  }

  lemma RaisedDropped(calls: map<RequestId, Call>, id: RequestId)
    ensures |Raised(calls - {id})| == |Raised(calls) - {id}|
  {
    assert Raised(calls - {id}) == Raised(calls) - {id};
  }

  lemma StepKeepsOrder(s: State, step: Step)
    requires InOrder(s.ch) && Enabled(s, step)
    ensures InOrder(Next(s, step).ch)
  {
    match step
    case TrySend(id) => AcceptKeepsOrder(s.ch, id);
    case SendClose(_) => AcceptKeepsOrder(s.ch, 0);
    case Receive => TakeKeepsOrder(s.ch);
    case _ =>
  }

  lemma CallKeepsCounts(s: State, step: Step, id: RequestId)
    requires Counts(s.counter, s.ch, s.calls) && s.calls.Keys <= s.used && Enabled(s, step)
    requires step in {MakeCall(id), ReadFlag(id), CountUp(id)}
    ensures var s' := Next(s, step); Counts(s'.counter, s'.ch, s'.calls)
  {
    RaisedDropped(s.calls, id);
    match step
    case MakeCall(_) => RaisedSet(s.calls, id, Called);
    case ReadFlag(_) => RaisedSet(s.calls, id, Admitted);
    case CountUp(_) => RaisedSet(s.calls, id, Counted);
  }

  lemma EndOfCallKeepsCounts(s: State, step: Step, id: RequestId)
    requires Counts(s.counter, s.ch, s.calls) && Enabled(s, step) && step in {FailCall(id), Uncount(id)}
    ensures var s' := Next(s, step); Counts(s'.counter, s'.ch, s'.calls)
  {
    RaisedDropped(s.calls, id);
  }

  lemma TrySendKeepsCounts(s: State, id: RequestId)
    requires InOrder(s.ch) && Counts(s.counter, s.ch, s.calls) && Enabled(s, TrySend(id))
    ensures var s' := Next(s, TrySend(id)); Counts(s'.counter, s'.ch, s'.calls)
  {
    RaisedDropped(s.calls, id);
    RaisedSet(s.calls, id, Refused);
    AcceptKeepsOrder(s.ch, id);
  }

  lemma StepKeepsCounts(s: State, step: Step)
    requires InOrder(s.ch) && Counts(s.counter, s.ch, s.calls) && s.calls.Keys <= s.used && Enabled(s, step)
    ensures var s' := Next(s, step); Counts(s'.counter, s'.ch, s'.calls)
  {
    match step
    case MakeCall(id) => CallKeepsCounts(s, step, id);
    case ReadFlag(id) => CallKeepsCounts(s, step, id);
    case FailCall(id) => EndOfCallKeepsCounts(s, step, id);
    case CountUp(id) => CallKeepsCounts(s, step, id);
    case Uncount(id) => EndOfCallKeepsCounts(s, step, id);
    case TrySend(id) => TrySendKeepsCounts(s, id);
    case SendClose(_) => AcceptKeepsOrder(s.ch, 0);
    case Receive => TakeKeepsOrder(s.ch);
    case _ =>
  }

  lemma StepKeepsNames(s: State, step: Step)
    requires Named(s.used, s.calls, s.ch.accepted) && Enabled(s, step)
    ensures var s' := Next(s, step); Named(s'.used, s'.calls, s'.ch.accepted)
  {
  }

  lemma StepKeepsCloses(s: State, step: Step)
    requires ClosesOnce(s.ch, s.closing, s.closers) && Enabled(s, step)
    ensures var s' := Next(s, step); ClosesOnce(s'.ch, s'.closing, s'.closers)
  {
    match step
    case TrySend(id) => QueueGrows(s.ch.queue, Request(id));
    case SendClose(_) => QueueGrows(s.ch.queue, Close);
    case _ =>
  }

  lemma StepKeepsEnd(s: State, step: Step)
    requires EndsEmpty(s) && Enabled(s, step)
    ensures EndsEmpty(Next(s, step))
  {
  }

  lemma StepKeepsInv(s: State, step: Step)
    requires Inv(s) && Enabled(s, step)
    ensures Inv(Next(s, step))
  {
    StepKeepsOrder(s, step);
    StepKeepsCounts(s, step);
    StepKeepsNames(s, step);
    StepKeepsCloses(s, step);
    StepKeepsEnd(s, step);
  }

  // Runs

  predicate Leads(s: State, step: Step, s': State) {
    Enabled(s, step) && s' == Next(s, step)
  }

  predicate Run(states: seq<State>, steps: seq<Step>) {
    && |states| == |steps| + 1
    && Init(states[0])
    && forall i :: 0 <= i < |steps| ==> Leads(states[i], steps[i], states[i + 1])
  }

  lemma {:induction false} RunHasInv(states: seq<State>, steps: seq<Step>, i: nat)
    requires Run(states, steps) && i < |states|
    ensures Inv(states[i])
  {
    if i == 0 {
      InitHasInv(states[0]);
    } else {
      var k := i - 1;
      RunHasInv(states, steps, k);
      assert Leads(states[k], steps[k], states[k + 1]);
      StepKeepsInv(states[k], steps[k]);
    }
  }

  /**
   * First come, first served, exactly once: what has been executed and what has been finished are
   * prefixes of what has been accepted, no request is accepted twice, and at most one is in hand.
   */
  lemma {:induction false} ServedInOrder(states: seq<State>, steps: seq<Step>, i: nat)
    requires Run(states, steps) && i < |states|
    ensures var ch := states[i].ch;
      && ch.finished <= ch.executed <= ch.accepted && |ch.executed| <= |ch.finished| + 1
      && forall a, b :: 0 <= a < b < |ch.accepted| ==> ch.accepted[a] != ch.accepted[b]
  {
    RunHasInv(states, steps, i);
  }

  /** The counter is the number of requests queued, at work, and between a caller's increment and the end of its call. */
  lemma {:induction false} CounterIsExact(states: seq<State>, steps: seq<Step>, i: nat)
    requires Run(states, steps) && i < |states|
    ensures var s := states[i];
      s.counter == |s.ch.accepted| - |s.ch.finished| - (if s.ch.handler.Replying? then 1 else 0) + |Raised(s.calls)|
  {
    RunHasInv(states, steps, i);
    var ch := states[i].ch;
    assert |ch.accepted| == |ch.finished| + |InHand(ch.handler)| + |Requests(ch.queue)|;
  }

  /** The channel is empty for good. */
  predicate Over(s: State) {
    && s.ch.queue == [] && (s.ch.receiverClosed || NoSenders(s)) && (s.ch.handler.Drained? || s.ch.handler.Closed?)
  }

  lemma StepStaysOver(s: State, step: Step)
    requires Over(s) && Enabled(s, step)
    ensures Over(Next(s, step)) && Next(s, step).ch.accepted == s.ch.accepted && Next(s, step).ch.finished == s.ch.finished
  {
  }

  lemma {:induction false} RunStaysOver(states: seq<State>, steps: seq<Step>, i: nat, j: nat)
    requires Run(states, steps) && i <= j < |states| && Over(states[i])
    ensures Over(states[j]) && states[j].ch.accepted == states[i].ch.accepted && states[j].ch.finished == states[i].ch.finished
    decreases j
  {
    if i < j {
      var k := j - 1;
      RunStaysOver(states, steps, i, k);
      assert Leads(states[k], steps[k], states[k + 1]);
      StepStaysOver(states[k], steps[k]);
    }
  }

  /** When any closer has reported Closed, all that was or ever will be accepted has been finished. */
  lemma {:induction false} ClosedMeansDrained(states: seq<State>, steps: seq<Step>, i: nat, j: nat, closer: CloserId)
    requires Run(states, steps) && i <= j < |states| && closer in states[i].closers && states[i].closers[closer].Told?
    ensures states[j].ch.finished == states[j].ch.accepted == states[i].ch.accepted
    ensures states[j].counter == |Raised(states[j].calls)|
  {
    RunHasInv(states, steps, i);
    RunHasInv(states, steps, j);
    RunStaysOver(states, steps, i, j);
    CounterIsExact(states, steps, j);
  }

  /** A call that was told BUSY or CLOSED, or is about to be, or that failed before it raised the counter. */
  predicate TurnedAway(s: State, id: RequestId) {
    id in s.used && id !in s.ch.accepted && (id in s.calls ==> s.calls[id].Refused?)
  }

  lemma StepStaysAway(s: State, step: Step, id: RequestId)
    requires TurnedAway(s, id) && Enabled(s, step)
    ensures TurnedAway(Next(s, step), id)
  {
  }

  /** A request that was turned away is never accepted and never executed. */
  lemma {:induction false} TurnedAwayForGood(states: seq<State>, steps: seq<Step>, i: nat, j: nat, id: RequestId)
    requires Run(states, steps) && i <= j < |states| && TurnedAway(states[i], id)
    ensures TurnedAway(states[j], id) && id !in states[j].ch.executed
    decreases j
  {
    if i < j {
      var k := j - 1;
      TurnedAwayForGood(states, steps, i, k, id);
      assert Leads(states[k], steps[k], states[k + 1]);
      StepStaysAway(states[k], steps[k], id);
    }
    RunHasInv(states, steps, j);
  }

  /** At most one Close message is sent to an actor in its life. */
  lemma {:induction false} OneClose(states: seq<State>, steps: seq<Step>, i: nat)
    requires Run(states, steps) && i < |states|
    ensures states[i].ch.closes <= 1
  {
    RunHasInv(states, steps, i);
  }

  // Draining ends

  function Progress(h: Handler): nat {
    match h
    case Working(_) => 4
    case Replying(_) => 3
    case Receiving => 2
    case Drained => 1
    case Closed => 0
  }

  /** What the handler has left to do. */
  function Left(s: State): nat {
    3 * |s.ch.queue| + Progress(s.ch.handler)
  }

  predicate ByHandler(step: Step) {
    step.Receive? || step.CountDown? || step.Reply? || step.EndLoop? || step.Announce?
  }

  /** Nothing more can be accepted: a Close was received, or the last sender is gone. */
  predicate Draining(s: State) {
    s.ch.receiverClosed || NoSenders(s)
  }

  /** While it drains the handler can move until it has closed. */
  lemma DrainCanGoOn(s: State)
    requires Draining(s) && !s.ch.handler.Closed?
    ensures exists step :: ByHandler(step) && Enabled(s, step)
  {
    var step := match s.ch.handler
      case Working(_) => CountDown
      case Replying(_) => Reply
      case Receiving => if s.ch.queue == [] then EndLoop else Receive
      case Drained => Announce
      case Closed => Announce;
    assert ByHandler(step) && Enabled(s, step);
  }

  /** And no step gives it more to do, while each of its own leaves it less: a drain ends. */
  lemma DrainEnds(s: State, step: Step)
    requires Draining(s) && Enabled(s, step)
    ensures Draining(Next(s, step)) && Left(Next(s, step)) <= Left(s)
    ensures ByHandler(step) ==> Left(Next(s, step)) < Left(s)
  {
  }

  // What is accepted

  lemma {:induction false} QueueHolds(queue: seq<Message>)
    ensures |queue| == |Requests(queue)| + Closes(queue)
  {
    if queue != [] {
      QueueHolds(queue[1..]);
    }
  }

  /** Messages sent and not yet received: requests accepted and not begun, and a Close that was sent and not received. */
  function Unreceived(ch: Channel): int {
    |ch.accepted| - |ch.executed| + ch.closes - if ch.receiverClosed then 1 else 0
  }

  lemma {:induction false} QueueIsUnreceived(states: seq<State>, steps: seq<Step>, i: nat)
    requires Run(states, steps) && i < |states|
    ensures |states[i].ch.queue| == Unreceived(states[i].ch)
  {
    RunHasInv(states, steps, i);
    var ch := states[i].ch;
    QueueHolds(ch.queue);
    assert |ch.accepted| == |ch.finished| + |InHand(ch.handler)| + |Requests(ch.queue)|;
  }

  lemma {:induction false} CapacityStays(states: seq<State>, steps: seq<Step>, i: nat)
    requires Run(states, steps) && i < |states|
    ensures states[i].capacity == states[0].capacity > 0
  {
    if i > 0 {
      CapacityStays(states, steps, i - 1);
      assert Leads(states[i - 1], steps[i - 1], states[i - 1 + 1]);
    }
  }

  /** A request is accepted exactly when no Close has been received and there is room for it; otherwise it is turned away. */
  lemma {:induction false} AcceptedExactly(states: seq<State>, steps: seq<Step>, i: nat, id: RequestId)
    requires Run(states, steps) && i < |steps| && steps[i] == TrySend(id)
    ensures var (ch, after) := (states[i].ch, states[i + 1]);
      && (id in after.ch.accepted <==> !ch.receiverClosed && Unreceived(ch) < states[0].capacity)
      && (id in after.ch.accepted ==> after.ch.accepted == ch.accepted + [id] && id !in after.calls)
      && (id !in after.ch.accepted ==> TurnedAway(after, id))
  {
    RunHasInv(states, steps, i);
    QueueIsUnreceived(states, steps, i);
    CapacityStays(states, steps, i);
    assert Leads(states[i], steps[i], states[i + 1]);
    var s := states[i];
    assert id !in s.ch.accepted;
  }

  /** Whether a closer has raised the flag in so many steps. */
  ghost predicate RaisedBefore(steps: seq<Step>, i: nat)
    requires i <= |steps|
  {
    exists k :: 0 <= k < i && steps[k].RaiseFlag?
  }

  lemma {:induction false} FlagIsRaised(states: seq<State>, steps: seq<Step>, i: nat)
    requires Run(states, steps) && i < |states|
    ensures states[i].closing <==> RaisedBefore(steps, i)
  {
    if i > 0 {
      var k := i - 1;
      FlagIsRaised(states, steps, k);
      assert Leads(states[k], steps[k], states[k + 1]);
      assert RaisedBefore(steps, i) <==> RaisedBefore(steps, k) || steps[k].RaiseFlag?;
    }
  }

  /** A call that looks at the flag goes on exactly when nobody has raised it yet. */
  lemma {:induction false} AdmittedExactly(states: seq<State>, steps: seq<Step>, i: nat, id: RequestId)
    requires Run(states, steps) && i < |steps| && steps[i] == ReadFlag(id)
    ensures id in states[i + 1].calls <==> !RaisedBefore(steps, i)
    ensures !RaisedBefore(steps, i) ==> states[i + 1].calls[id] == Admitted
    ensures RaisedBefore(steps, i) ==> TurnedAway(states[i + 1], id)
  {
    RunHasInv(states, steps, i);
    FlagIsRaised(states, steps, i);
    assert Leads(states[i], steps[i], states[i + 1]);
    assert id !in states[i].ch.accepted;
  }

  /** So a call that looks at the flag after it was raised is never accepted and never executed. */
  lemma {:induction false} LateCallsNeverRun(states: seq<State>, steps: seq<Step>, i: nat, j: nat, id: RequestId)
    requires Run(states, steps) && i < |steps| && i < j < |states| && steps[i] == ReadFlag(id) && RaisedBefore(steps, i)
    ensures id !in states[j].ch.accepted && id !in states[j].ch.executed
  {
    AdmittedExactly(states, steps, i, id);
    TurnedAwayForGood(states, steps, i + 1, j, id);
  }

  /** Once the flag is up a Close has been sent, or the closer that raised it is about to send it. */
  predicate CloseIsComing(s: State) {
    s.closing ==> s.ch.closes == 1 || exists c :: c in s.closers && s.closers[c].Sending?
  }

  lemma StepKeepsComing(s: State, step: Step)
    requires Inv(s) && CloseIsComing(s) && Enabled(s, step)
    ensures CloseIsComing(Next(s, step))
  {
    var s' := Next(s, step);
    if s.closing && s.ch.closes != 1 {
      var c :| c in s.closers && s.closers[c].Sending?;
      assert step != SendClose(c) ==> c in s'.closers && s'.closers[c].Sending?;
    } else if step.RaiseFlag? {
      assert !s.closing ==> s'.closers[step.closer].Sending?;
    }
  }

  lemma {:induction false} CloseIsNotForgotten(states: seq<State>, steps: seq<Step>, i: nat)
    requires Run(states, steps) && i < |states|
    ensures RaisedBefore(steps, i) ==> states[i].ch.closes == 1 || exists c :: c in states[i].closers && states[i].closers[c].Sending?
    ensures CloseIsComing(states[i])
  {
    if i > 0 {
      var k := i - 1;
      CloseIsNotForgotten(states, steps, k);
      RunHasInv(states, steps, k);
      assert Leads(states[k], steps[k], states[k + 1]);
      StepKeepsComing(states[k], steps[k]);
    }
    FlagIsRaised(states, steps, i);
  }

  // Nobody waits for ever

  /** A call always has a step of its own, whatever the others do. */
  lemma CallCanGoOn(s: State, id: RequestId)
    requires id in s.calls
    ensures Enabled(s, ReadFlag(id)) || Enabled(s, CountUp(id)) || Enabled(s, TrySend(id)) || Enabled(s, Uncount(id))
  {
  }

  /** So has a closer that is about to raise the flag, that has room for its message, or that was waiting for the end. */
  lemma CloserCanGoOn(s: State, c: CloserId)
    requires c in s.closers
    ensures s.closers[c].Asked? ==> Enabled(s, RaiseFlag(c))
    ensures s.closers[c].Sending? && (s.ch.receiverClosed || |s.ch.queue| < s.capacity) ==> Enabled(s, SendClose(c))
    ensures s.closers[c].Waiting? && s.ch.handler.Closed? ==> Enabled(s, ReportClosed(c))
  {
  }

  /** A handler that works or has something to receive can go on. */
  lemma HandlerCanGoOn(s: State)
    requires s.ch.handler.Working? || s.ch.handler.Replying? || (s.ch.handler.Receiving? && s.ch.queue != [])
    ensures Enabled(s, CountDown) || Enabled(s, Reply) || Enabled(s, Receive)
  {
  }

  /** In an open channel with a free place a new request that nothing comes in between is accepted. */
  lemma RequestCanBeSent(s: State, id: RequestId) returns (called: State, admitted: State, counted: State, sent: State)
    requires !s.closing && !s.ch.receiverClosed && |s.ch.queue| < s.capacity && id !in s.used && id !in s.calls && !NoSenders(s)
    ensures Leads(s, MakeCall(id), called) && Leads(called, ReadFlag(id), admitted)
    ensures Leads(admitted, CountUp(id), counted) && Leads(counted, TrySend(id), sent)
    ensures sent == s.(ch := Accept(s.ch, id), counter := s.counter + 1, used := s.used + {id})
  {
    called := Next(s, MakeCall(id));
    admitted := Next(called, ReadFlag(id));
    counted := Next(admitted, CountUp(id));
    sent := Next(counted, TrySend(id));
    assert sent.calls == s.calls;
  }

  /** And an idle handler then executes and answers the first request in the queue. */
  lemma RequestCanBeServed(s: State, id: RequestId, more: seq<Message>) returns (working: State, replying: State, served: State)
    requires s.ch.handler.Receiving? && s.ch.queue == [Request(id)] + more
    ensures Leads(s, Receive, working) && Leads(working, CountDown, replying) && Leads(replying, Reply, served)
    ensures served == s.(counter := s.counter - 1,
                         ch := s.ch.(queue := more, executed := s.ch.executed + [id], finished := s.ch.finished + [id]))
  {
    assert s.ch.queue[1..] == more;
    working := Next(s, Receive);
    replying := Next(working, CountDown);
    served := Next(replying, Reply);
  }
}
