/**
 * Named connections: connects that replace an earlier actor of the name, lookups, closes and handlers
 * that clean up after themselves, each in several atomic steps that interleave freely.
 */
module NamedConnections {
  import opened Wrappers

  type Name = int
  type ActorId = int
  type OpId = int

  datatype Life = Running | Ended | CleanedUp

  datatype Actor = Actor(
    name: Name,
    closing: bool,
    senders: nat,  // strong references to its sending half
    life: Life,
    closes: nat    // history: Close messages sent to it
  )

  /**
   * An attempt to close an actor: before it raises the flag, before it upgrades a weak sender, while it
   * holds the sender with which it will send. A replacing connect starts from the weak sender of the
   * registration, close() from the strong one of its handle.
   */
  datatype Phase = ToRaise | ToUpgrade | ToSend

  datatype CloseOp = CloseOp(target: ActorId, weak: bool, phase: Phase)

  /** A lookup that has read a registration: before the flag, before the upgrade, before the removal. */
  datatype LookPhase = ToCheck | ToTake | ToRemove

  datatype Lookup = Lookup(name: Name, found: ActorId, phase: LookPhase)

  datatype State = State(
    table: map<Name, ActorId>,
    actors: map<ActorId, Actor>,
    closeOps: map<OpId, CloseOp>,
    lookups: map<OpId, Lookup>,
    newest: map<Name, ActorId>,          // history: the last registration of each name
    read: map<OpId, Option<ActorId>>,    // history: what was the newest when a lookup read the table
    answers: map<OpId, Option<ActorId>>  // history: the actor a lookup returned, or nil
  )

  predicate Init(s: State) {
    s == State(map[], map[], map[], map[], map[], map[], map[])
  }

  datatype Step =
    | Insert(a: ActorId, name: Name, op: OpId)   // registers a new actor, and starts to close the one it replaces
    | CloneSender(a: ActorId) | DropSender(a: ActorId)
    | StartClose(op: OpId, a: ActorId)           // close() on a handle
    | Raise(op: OpId) | Upgrade(op: OpId) | Send(op: OpId)
    | EndLoop(a: ActorId) | CleanUp(a: ActorId)
    | Get(op: OpId, name: Name) | Check(op: OpId) | TakeSender(op: OpId) | Remove(op: OpId)

  /** Senders that some attempt to close holds. */
  function HeldSenders(closeOps: map<OpId, CloseOp>, a: ActorId): set<OpId> {
    set op | op in closeOps && Holds(closeOps[op], a)
  }

  predicate Holds(c: CloseOp, a: ActorId) {
    c.target == a && (c.phase.ToSend? || (c.phase.ToRaise? && !c.weak))
  }

  predicate Enabled(s: State, step: Step) {
    match step
    case Insert(a, name, op) => a !in s.actors && op !in s.closeOps
    case CloneSender(a) => a in s.actors && s.actors[a].senders > 0
    case DropSender(a) => a in s.actors && s.actors[a].senders > |HeldSenders(s.closeOps, a)|
    case StartClose(op, a) => op !in s.closeOps && a in s.actors && s.actors[a].senders > 0
    case Raise(op) => op in s.closeOps && s.closeOps[op].phase.ToRaise? && s.closeOps[op].target in s.actors
    case Upgrade(op) => op in s.closeOps && s.closeOps[op].phase.ToUpgrade? && s.closeOps[op].target in s.actors
    case Send(op) => op in s.closeOps && s.closeOps[op].phase.ToSend? && s.closeOps[op].target in s.actors && s.actors[s.closeOps[op].target].senders > 0
    case EndLoop(a) => a in s.actors && s.actors[a].life.Running? && (s.actors[a].closes > 0 || s.actors[a].senders == 0)
    case CleanUp(a) => a in s.actors && s.actors[a].life.Ended?
    case Get(op, name) => op !in s.read
    case Check(op) => op in s.lookups && s.lookups[op].phase.ToCheck? && s.lookups[op].found in s.actors
    case TakeSender(op) => op in s.lookups && s.lookups[op].phase.ToTake? && s.lookups[op].found in s.actors
    case Remove(op) => op in s.lookups && s.lookups[op].phase.ToRemove?
  }

  /** remove_if with pointer equality: the entry goes only if it is still this actor's. */
  function RemoveIf(table: map<Name, ActorId>, name: Name, a: ActorId): map<Name, ActorId> {
    if name in table && table[name] == a then table - {name} else table
  }

  // What a step does to each part of the state

  function WithSenders(actors: map<ActorId, Actor>, a: ActorId, senders: nat): map<ActorId, Actor>
    requires a in actors
  {
    actors[a := actors[a].(senders := senders)]
  }

  /** swap(true): the first to raise the flag goes on, the others are done and let their sender go. */
  function RaiseFlag(actors: map<ActorId, Actor>, c: CloseOp): map<ActorId, Actor>
    requires c.target in actors
  {
    var a := actors[c.target];
    if !a.closing then actors[c.target := a.(closing := true)]
    else if c.weak || a.senders == 0 then actors
    else WithSenders(actors, c.target, a.senders - 1)
  }

  function NextActors(s: State, step: Step): map<ActorId, Actor>
    requires Enabled(s, step)
  {
    match step
    case Insert(a, name, _) => s.actors[a := Actor(name, false, 1, Running, 0)]
    case CloneSender(a) => WithSenders(s.actors, a, s.actors[a].senders + 1)
    case DropSender(a) => WithSenders(s.actors, a, s.actors[a].senders - 1)
    case StartClose(_, a) => WithSenders(s.actors, a, s.actors[a].senders + 1)
    case Raise(op) => RaiseFlag(s.actors, s.closeOps[op])
    case Upgrade(op) => Upgraded(s.actors, s.closeOps[op].target)
    case Send(op) => Sent(s.actors, s.closeOps[op].target)
    case EndLoop(a) => s.actors[a := s.actors[a].(life := Ended)]
    case CleanUp(a) => s.actors[a := s.actors[a].(life := CleanedUp)]
    case TakeSender(op) => Upgraded(s.actors, s.lookups[op].found)
    case _ => s.actors
  }

  /** Weak::upgrade of a sender: one more of them, unless there is none. */
  function Upgraded(actors: map<ActorId, Actor>, a: ActorId): map<ActorId, Actor>
    requires a in actors
  {
    if actors[a].senders == 0 then actors else WithSenders(actors, a, actors[a].senders + 1)
  }

  function Sent(actors: map<ActorId, Actor>, a: ActorId): map<ActorId, Actor>
    requires a in actors && actors[a].senders > 0
  {
    actors[a := actors[a].(senders := actors[a].senders - 1, closes := actors[a].closes + 1)]
  }

  function NextTable(s: State, step: Step): map<Name, ActorId>
    requires Enabled(s, step)
  {
    match step
    case Insert(a, name, _) => s.table[name := a]
    case CleanUp(a) => RemoveIf(s.table, s.actors[a].name, a)
    case Remove(op) => RemoveIf(s.table, s.lookups[op].name, s.lookups[op].found)
    case _ => s.table
  }

  function NextNewest(s: State, step: Step): map<Name, ActorId> {
    if step.Insert? then s.newest[step.name := step.a] else s.newest
  }

  function NextCloseOps(s: State, step: Step): map<OpId, CloseOp>
    requires Enabled(s, step)
  {
    match step
    case Insert(_, name, op) => if name in s.table then s.closeOps[op := CloseOp(s.table[name], true, ToRaise)] else s.closeOps
    case StartClose(op, a) => s.closeOps[op := CloseOp(a, false, ToRaise)]
    case Raise(op) =>
      var c := s.closeOps[op];
      if s.actors[c.target].closing then s.closeOps - {op}
      else s.closeOps[op := c.(phase := if c.weak then ToUpgrade else ToSend)]
    case Upgrade(op) =>
      var c := s.closeOps[op];
      if s.actors[c.target].senders == 0 then s.closeOps - {op} else s.closeOps[op := c.(phase := ToSend)]
    case Send(op) => s.closeOps - {op}
    case _ => s.closeOps
  }

  /** A lookup is over when the name is not in the table, when it gets a sender, or when it has removed a dead entry. */
  function NextLookups(s: State, step: Step): map<OpId, Lookup>
    requires Enabled(s, step)
  {
    match step
    case Get(op, name) => if name in s.table then s.lookups[op := Lookup(name, s.table[name], ToCheck)] else s.lookups
    case Check(op) =>
      var l := s.lookups[op];
      s.lookups[op := l.(phase := if s.actors[l.found].closing then ToRemove else ToTake)]
    case TakeSender(op) =>
      var l := s.lookups[op];
      if s.actors[l.found].senders == 0 then s.lookups[op := l.(phase := ToRemove)] else s.lookups - {op}
    case Remove(op) => s.lookups - {op}
    case _ => s.lookups
  }

  function NewestOf(s: State, name: Name): Option<ActorId> {
    if name in s.newest then Some(s.newest[name]) else None
  }

  function NextRead(s: State, step: Step): map<OpId, Option<ActorId>> {
    if step.Get? then s.read[step.op := NewestOf(s, step.name)] else s.read
  }

  function NextAnswers(s: State, step: Step): map<OpId, Option<ActorId>>
    requires Enabled(s, step)
  {
    match step
    case Get(op, name) => if name in s.table then s.answers else s.answers[op := None]
    case TakeSender(op) =>
      if s.actors[s.lookups[op].found].senders == 0 then s.answers else s.answers[op := Some(s.lookups[op].found)]
    case Remove(op) => s.answers[op := None]
    case _ => s.answers
  }

  function Next(s: State, step: Step): State
    requires Enabled(s, step)
  {
    State(NextTable(s, step), NextActors(s, step), NextCloseOps(s, step), NextLookups(s, step),
          NextNewest(s, step), NextRead(s, step), NextAnswers(s, step))
  }

  // What every step keeps.

  /** An actor that nobody has begun to close and that someone can still send to. */
  predicate Open(a: Actor) {
    !a.closing && a.senders > 0
  }

  predicate TableAgrees(table: map<Name, ActorId>, newest: map<Name, ActorId>, actors: map<ActorId, Actor>) {
    && (forall n :: n in newest ==> newest[n] in actors && actors[newest[n]].name == n)
    && (forall n :: n in table ==> n in newest && table[n] == newest[n])
    && (forall n :: n in newest && Open(actors[newest[n]]) ==> n in table)
  }

  predicate ActorAgrees(a: Actor) {
    (a.life != Running || a.closes > 0 ==> !Open(a)) && a.closes <= 1 && (a.closes == 1 ==> a.closing)
  }

  predicate ActorsAgree(actors: map<ActorId, Actor>) {
    forall a :: a in actors ==> ActorAgrees(actors[a])
  }

  predicate LookupAgrees(l: Lookup, actors: map<ActorId, Actor>) {
    l.found in actors && actors[l.found].name == l.name && (l.phase.ToRemove? ==> !Open(actors[l.found]))
  }

  predicate LookupsAgree(lookups: map<OpId, Lookup>, actors: map<ActorId, Actor>) {
    forall op :: op in lookups ==> LookupAgrees(lookups[op], actors)
  }

  /** A lookup in progress has found what was the newest when it read. */
  predicate ReadsAgree(lookups: map<OpId, Lookup>, read: map<OpId, Option<ActorId>>) {
    forall op :: op in lookups ==> op in read && read[op] == Some(lookups[op].found)
  }

  /** A lookup returned what was the newest when it read, or nil when that one is not open. */
  predicate AnswerAgrees(read: Option<ActorId>, answer: Option<ActorId>, actors: map<ActorId, Actor>) {
    && (answer.Some? ==> read == answer)
    && (read.Some? ==> read.value in actors && (answer.None? ==> !Open(actors[read.value])))
  }

  predicate AnswersAgree(read: map<OpId, Option<ActorId>>, answers: map<OpId, Option<ActorId>>, actors: map<ActorId, Actor>) {
    forall op :: op in answers ==> op in read && AnswerAgrees(read[op], answers[op], actors)
  }

  predicate PastFlag(c: CloseOp, a: ActorId) {
    !c.phase.ToRaise? && c.target == a
  }

  /** Of all the attempts to close an actor at most one gets past the flag, and then no message has been sent before. */
  predicate CloseOpsAgree(actors: map<ActorId, Actor>, closeOps: map<OpId, CloseOp>) {
    && (forall op :: op in closeOps ==> closeOps[op].target in actors)
    && (forall op :: op in closeOps && !closeOps[op].phase.ToRaise? ==>
          actors[closeOps[op].target].closing && actors[closeOps[op].target].closes == 0)
    && (forall x, y :: x in closeOps && y in closeOps && PastFlag(closeOps[x], closeOps[y].target) && !closeOps[y].phase.ToRaise? ==> x == y)
  }

  predicate Inv(s: State) {
    && TableAgrees(s.table, s.newest, s.actors) && ActorsAgree(s.actors) && LookupsAgree(s.lookups, s.actors)
    && ReadsAgree(s.lookups, s.read) && AnswersAgree(s.read, s.answers, s.actors) && CloseOpsAgree(s.actors, s.closeOps)
  }

  /** Actors stay, keep their names, and do not open again. */
  predicate OnlyShuts(actors: map<ActorId, Actor>, actors': map<ActorId, Actor>) {
    forall a :: a in actors ==> a in actors' && Shuts(actors[a], actors'[a])
  }

  predicate Shuts(a: Actor, a': Actor) {
    a'.name == a.name && (!Open(a) ==> !Open(a'))
  }

  lemma StepOnlyShuts(s: State, step: Step)
    requires Enabled(s, step)
    ensures OnlyShuts(s.actors, NextActors(s, step))
  {
  }

  lemma RemovalKeepsTable(table: map<Name, ActorId>, newest: map<Name, ActorId>, actors: map<ActorId, Actor>, name: Name, a: ActorId)
    requires TableAgrees(table, newest, actors) && a in actors && !Open(actors[a])
    ensures TableAgrees(RemoveIf(table, name, a), newest, actors)
  {
  }

  lemma ShuttingKeepsTable(table: map<Name, ActorId>, newest: map<Name, ActorId>, actors: map<ActorId, Actor>, actors': map<ActorId, Actor>)
    requires TableAgrees(table, newest, actors) && OnlyShuts(actors, actors')
    ensures TableAgrees(table, newest, actors')
  {
    forall n | n in newest
      ensures newest[n] in actors' && actors'[newest[n]].name == n && (Open(actors'[newest[n]]) ==> n in table)
    {
      var a := newest[n];
      assert a in actors && Shuts(actors[a], actors'[a]);
    }
  }

  lemma InsertKeepsTable(s: State, a: ActorId, name: Name, op: OpId)
    requires TableAgrees(s.table, s.newest, s.actors) && Enabled(s, Insert(a, name, op))
    ensures TableAgrees(s.table[name := a], s.newest[name := a], NextActors(s, Insert(a, name, op)))
  {
  }

  lemma StepKeepsTable(s: State, step: Step)
    requires Inv(s) && Enabled(s, step)
    ensures TableAgrees(NextTable(s, step), NextNewest(s, step), NextActors(s, step))
  {
    StepOnlyShuts(s, step);
    match step {
      case Insert(a, name, op) => InsertKeepsTable(s, a, name, op);
      case CleanUp(a) =>
        assert ActorAgrees(s.actors[a]);
        RemovalKeepsTable(s.table, s.newest, s.actors, s.actors[a].name, a);
        ShuttingKeepsTable(NextTable(s, step), s.newest, s.actors, NextActors(s, step));
      case Remove(op) =>
        assert LookupAgrees(s.lookups[op], s.actors);
        RemovalKeepsTable(s.table, s.newest, s.actors, s.lookups[op].name, s.lookups[op].found);
      case _ => ShuttingKeepsTable(s.table, s.newest, s.actors, NextActors(s, step));
    }
  }

  lemma StepKeepsActors(s: State, step: Step)
    requires ActorsAgree(s.actors) && CloseOpsAgree(s.actors, s.closeOps) && Enabled(s, step)
    ensures ActorsAgree(NextActors(s, step))
  {
    forall a | a in NextActors(s, step) ensures ActorAgrees(NextActors(s, step)[a]) {
      assert a in s.actors ==> ActorAgrees(s.actors[a]);
    }
  }

  lemma ShuttingKeepsLookups(lookups: map<OpId, Lookup>, actors: map<ActorId, Actor>, actors': map<ActorId, Actor>)
    requires LookupsAgree(lookups, actors) && OnlyShuts(actors, actors')
    ensures LookupsAgree(lookups, actors')
  {
    forall op | op in lookups ensures LookupAgrees(lookups[op], actors') {
      assert LookupAgrees(lookups[op], actors) && Shuts(actors[lookups[op].found], actors'[lookups[op].found]);
    }
  }

  lemma ProgressKeepsLookups(s: State, step: Step)
    requires TableAgrees(s.table, s.newest, s.actors) && LookupsAgree(s.lookups, s.actors) && Enabled(s, step)
    ensures LookupsAgree(NextLookups(s, step), s.actors)
  {
    forall op | op in NextLookups(s, step) ensures LookupAgrees(NextLookups(s, step)[op], s.actors) {
      assert op in s.lookups ==> LookupAgrees(s.lookups[op], s.actors);
    }
  }

  lemma StepKeepsLookups(s: State, step: Step)
    requires TableAgrees(s.table, s.newest, s.actors) && LookupsAgree(s.lookups, s.actors) && Enabled(s, step)
    ensures LookupsAgree(NextLookups(s, step), NextActors(s, step))
  {
    StepOnlyShuts(s, step);
    ProgressKeepsLookups(s, step);
    ShuttingKeepsLookups(NextLookups(s, step), s.actors, NextActors(s, step));
  }

  lemma StepKeepsReads(s: State, step: Step)
    requires TableAgrees(s.table, s.newest, s.actors) && ReadsAgree(s.lookups, s.read) && Enabled(s, step)
    ensures ReadsAgree(NextLookups(s, step), NextRead(s, step))
  {
  }

  lemma ShuttingKeepsAnswers(read: map<OpId, Option<ActorId>>, answers: map<OpId, Option<ActorId>>,
                             actors: map<ActorId, Actor>, actors': map<ActorId, Actor>)
    requires AnswersAgree(read, answers, actors) && OnlyShuts(actors, actors')
    ensures AnswersAgree(read, answers, actors')
  {
    forall op | op in answers ensures AnswerAgrees(read[op], answers[op], actors') {
      assert AnswerAgrees(read[op], answers[op], actors);
      if read[op].Some? {
        var a := read[op].value;
        assert a in actors && Shuts(actors[a], actors'[a]);
      }
    }
  }

  /** A lookup is answered in three ways: with what it found, or nil for a missing name or for a dead entry. */
  lemma ProgressKeepsAnswers(s: State, step: Step)
    requires Inv(s) && Enabled(s, step)
    ensures AnswersAgree(NextRead(s, step), NextAnswers(s, step), s.actors)
  {
    forall op | op in NextAnswers(s, step)
      ensures op in NextRead(s, step) && AnswerAgrees(NextRead(s, step)[op], NextAnswers(s, step)[op], s.actors)
    {
      assert op in s.answers ==> op in s.read && AnswerAgrees(s.read[op], s.answers[op], s.actors);
      assert op in s.lookups ==> LookupAgrees(s.lookups[op], s.actors);
    }
  }

  lemma StepKeepsAnswers(s: State, step: Step)
    requires Inv(s) && Enabled(s, step)
    ensures AnswersAgree(NextRead(s, step), NextAnswers(s, step), NextActors(s, step))
  {
    StepOnlyShuts(s, step);
    ProgressKeepsAnswers(s, step);
    ShuttingKeepsAnswers(NextRead(s, step), NextAnswers(s, step), s.actors, NextActors(s, step));
  }

  lemma RaiseKeepsCloseOps(s: State, op: OpId)
    requires ActorsAgree(s.actors) && CloseOpsAgree(s.actors, s.closeOps) && Enabled(s, Raise(op))
    ensures CloseOpsAgree(NextActors(s, Raise(op)), NextCloseOps(s, Raise(op)))
  {
    assert ActorAgrees(s.actors[s.closeOps[op].target]);
  }

  lemma AttemptKeepsCloseOps(s: State, op: OpId)
    requires ActorsAgree(s.actors) && CloseOpsAgree(s.actors, s.closeOps)
    ensures Enabled(s, Upgrade(op)) ==> CloseOpsAgree(NextActors(s, Upgrade(op)), NextCloseOps(s, Upgrade(op)))
    ensures Enabled(s, Send(op)) ==> CloseOpsAgree(NextActors(s, Send(op)), NextCloseOps(s, Send(op)))
  {
  }

  lemma InsertKeepsCloseOps(s: State, a: ActorId, name: Name, op: OpId)
    requires TableAgrees(s.table, s.newest, s.actors) && CloseOpsAgree(s.actors, s.closeOps) && Enabled(s, Insert(a, name, op))
    ensures CloseOpsAgree(NextActors(s, Insert(a, name, op)), NextCloseOps(s, Insert(a, name, op)))
  {
  }

  lemma StepKeepsCloseOps(s: State, step: Step)
    requires TableAgrees(s.table, s.newest, s.actors) && ActorsAgree(s.actors) && CloseOpsAgree(s.actors, s.closeOps) && Enabled(s, step)
    ensures CloseOpsAgree(NextActors(s, step), NextCloseOps(s, step))
  {
    match step
    case Raise(op) => RaiseKeepsCloseOps(s, op);
    case Upgrade(op) => AttemptKeepsCloseOps(s, op);
    case Send(op) => AttemptKeepsCloseOps(s, op);
    case Insert(a, name, op) => InsertKeepsCloseOps(s, a, name, op);
    case _ =>
  }

  /** An actor has at least the senders that attempts to close it hold. */
  predicate SendersAgree(actors: map<ActorId, Actor>, closeOps: map<OpId, CloseOp>) {
    forall a :: a in actors ==> actors[a].senders >= |HeldSenders(closeOps, a)|
  }

  lemma HeldChange(closeOps: map<OpId, CloseOp>, op: OpId, c: CloseOp, a: ActorId)
    ensures |HeldSenders(closeOps[op := c], a)| ==
      |HeldSenders(closeOps, a)| + (if Holds(c, a) then 1 else 0) - (if op in closeOps && Holds(closeOps[op], a) then 1 else 0)
    ensures |HeldSenders(closeOps - {op}, a)| == |HeldSenders(closeOps, a)| - (if op in closeOps && Holds(closeOps[op], a) then 1 else 0)
  {
    var rest := HeldSenders(closeOps, a) - {op};
    assert HeldSenders(closeOps[op := c], a) == if Holds(c, a) then rest + {op} else rest;
    assert HeldSenders(closeOps - {op}, a) == rest;
  }

  /** Nobody yet holds a sender of an actor that is only now registered. */
  lemma NewHasNoneHeld(actors: map<ActorId, Actor>, closeOps: map<OpId, CloseOp>, a: ActorId)
    requires CloseOpsAgree(actors, closeOps) && a !in actors
    ensures HeldSenders(closeOps, a) == {}
  {
    assert forall op :: op in closeOps ==> !Holds(closeOps[op], a);
  }

  lemma SendersOfOne(s: State, step: Step, a: ActorId)
    requires CloseOpsAgree(s.actors, s.closeOps) && TableAgrees(s.table, s.newest, s.actors) && SendersAgree(s.actors, s.closeOps)
    requires Enabled(s, step) && a in NextActors(s, step)
    ensures NextActors(s, step)[a].senders >= |HeldSenders(NextCloseOps(s, step), a)|
  {
    if a !in s.actors {
      NewHasNoneHeld(s.actors, s.closeOps, a);
    }
    if step.Insert? || step.StartClose? || step.Raise? || step.Upgrade? || step.Send? {
      var after := NextCloseOps(s, step);
      HeldChange(s.closeOps, step.op, if step.op in after then after[step.op] else CloseOp(a, true, ToRaise), a);
    }
  }

  lemma StepKeepsSenders(s: State, step: Step)
    requires CloseOpsAgree(s.actors, s.closeOps) && TableAgrees(s.table, s.newest, s.actors) && SendersAgree(s.actors, s.closeOps)
    requires Enabled(s, step)
    ensures SendersAgree(NextActors(s, step), NextCloseOps(s, step))
  {
    forall a | a in NextActors(s, step) ensures NextActors(s, step)[a].senders >= |HeldSenders(NextCloseOps(s, step), a)| {
      SendersOfOne(s, step, a);
    }
  }

  lemma StepKeepsInv(s: State, step: Step)
    requires Inv(s) && SendersAgree(s.actors, s.closeOps) && Enabled(s, step)
    ensures Inv(Next(s, step)) && SendersAgree(Next(s, step).actors, Next(s, step).closeOps)
  {
    StepKeepsTable(s, step);
    StepKeepsActors(s, step);
    StepKeepsLookups(s, step);
    StepKeepsReads(s, step);
    StepKeepsAnswers(s, step);
    StepKeepsCloseOps(s, step);
    StepKeepsSenders(s, step);
  }

  /** An attempt to close holds what it needs: none of its steps waits for anything. */
  lemma AttemptsAreNeverStuck(s: State, op: OpId)
    requires CloseOpsAgree(s.actors, s.closeOps) && SendersAgree(s.actors, s.closeOps) && op in s.closeOps
    ensures Enabled(s, Raise(op)) || Enabled(s, Upgrade(op)) || Enabled(s, Send(op))
  {
    var a := s.closeOps[op].target;
    if s.closeOps[op].phase.ToSend? {
      assert op in HeldSenders(s.closeOps, a);
    }
  }

  // Runs

  predicate Leads(s: State, step: Step, s': State) {
    Enabled(s, step) && s' == Next(s, step)
  }

  predicate Run(states: seq<State>, steps: seq<Step>) {
    && |states| == |steps| + 1
    && Init(states[0])
    && forall i :: 0 <= i < |steps| ==> Leads(states[i], steps[i], states[i + 1])
  }

  lemma {:induction false} RunHasInv(states: seq<State>, steps: seq<Step>, i: nat)
    requires Run(states, steps) && i < |states|
    ensures Inv(states[i]) && SendersAgree(states[i].actors, states[i].closeOps)
  {
    if i > 0 {
      var k := i - 1;
      RunHasInv(states, steps, k);
      assert Leads(states[k], steps[k], states[k + 1]);
      StepKeepsInv(states[k], steps[k]);
    }
  }

  /** An actor is sent at most one Close message, however many close it or replace it. */
  lemma {:induction false} OneClose(states: seq<State>, steps: seq<Step>, i: nat, a: ActorId)
    requires Run(states, steps) && i < |states| && a in states[i].actors
    ensures states[i].actors[a].closes <= 1
  {
    RunHasInv(states, steps, i);
  }

  /**
   * The newest registration of a name, while it is open, is the one that a lookup reads: no clean-up and
   * no failed lookup removes it, and no older one is ever read in its place.
   */
  lemma {:induction false} LookupReadsNewest(states: seq<State>, steps: seq<Step>, i: nat, name: Name)
    requires Run(states, steps) && i < |states|
    ensures name in states[i].newest ==> states[i].newest[name] in states[i].actors
    ensures name in states[i].newest && Open(states[i].actors[states[i].newest[name]]) ==> name in states[i].table
    ensures name in states[i].table ==> name in states[i].newest && states[i].table[name] == states[i].newest[name]
  {
    RunHasInv(states, steps, i);
  }

  /**
   * The newest registration that is open is the one found: a lookup returns nothing but what was the newest
   * when it read, and returns that one unless it is closing or has lost its senders by the time of the answer.
   */
  lemma {:induction false} LookupFindsNewest(states: seq<State>, steps: seq<Step>, i: nat, op: OpId)
    requires Run(states, steps) && i < |states| && op in states[i].answers
    ensures op in states[i].read
    ensures states[i].answers[op].Some? ==> states[i].answers[op] == states[i].read[op]
    ensures states[i].read[op].Some? ==> states[i].read[op].value in states[i].actors
    ensures states[i].read[op].Some? && Open(states[i].actors[states[i].read[op].value]) ==> states[i].answers[op] == states[i].read[op]
  {
    RunHasInv(states, steps, i);
  }

  /** And what a lookup is recorded to have read is the newest registration of its name at that moment. */
  lemma {:induction false} LookupIsRecorded(states: seq<State>, steps: seq<Step>, i: nat, j: nat, op: OpId, name: Name)
    requires Run(states, steps) && i < j < |states| && steps[i] == Get(op, name)
    ensures op in states[j].read && states[j].read[op] == NewestOf(states[i], name)
    decreases j
  {
    var k := j - 1;
    assert Leads(states[k], steps[k], states[k + 1]);
    if i < k {
      LookupIsRecorded(states, steps, i, k, op, name);
    }
  }

  /** A lookup fails only when the registration it read was already closing or had lost its senders. */
  lemma {:induction false} LookupFailsOnlyOnDead(states: seq<State>, steps: seq<Step>, i: nat, op: OpId)
    requires Run(states, steps) && i < |states| && op in states[i].lookups
    ensures states[i].lookups[op].found in states[i].actors
    ensures states[i].lookups[op].phase.ToRemove? ==> !Open(states[i].actors[states[i].lookups[op].found])
  {
    RunHasInv(states, steps, i);
  }

  /** The end of one actor leaves every entry of another in place. */
  lemma {:induction false} CleanUpSparesOthers(states: seq<State>, steps: seq<Step>, i: nat, b: ActorId, name: Name)
    requires Run(states, steps) && i < |steps| && name in states[i].table && states[i].table[name] == b
    requires !steps[i].Insert? && (name !in states[i + 1].table || states[i + 1].table[name] != b)
    ensures b in states[i].actors && !Open(states[i].actors[b]) && name !in states[i + 1].table
    ensures steps[i] == CleanUp(b) || (steps[i].Remove? && states[i].lookups[steps[i].op].found == b)
  {
    RunHasInv(states, steps, i);
    assert Leads(states[i], steps[i], states[i + 1]);
  }

  // What a lookup asks of the actor it returns

  /** A lookup that is about to take a sender saw the flag down when it looked. */
  lemma {:induction false} FlagWasDown(states: seq<State>, steps: seq<Step>, j: nat, op: OpId) returns (check: nat)
    requires Run(states, steps) && j < |states| && op in states[j].lookups && states[j].lookups[op].phase.ToTake?
    ensures check < j && steps[check] == Check(op)
    ensures var a := states[j].lookups[op].found; a in states[check].actors && !states[check].actors[a].closing
  {
    var k := j - 1;
    assert Leads(states[k], steps[k], states[k + 1]);
    if steps[k] == Check(op) {
      check := k;
    } else {
      check := FlagWasDown(states, steps, k, op);
    }
  }

  /** The actor that a lookup returned was not closing when the lookup checked, and had senders when it took one. */
  lemma {:induction false} FoundWasOpen(states: seq<State>, steps: seq<Step>, j: nat, op: OpId) returns (check: nat, take: nat)
    requires Run(states, steps) && j < |states| && op in states[j].answers && states[j].answers[op].Some?
    ensures check < take < j && steps[check] == Check(op) && steps[take] == TakeSender(op)
    ensures var a := states[j].answers[op].value;
      && a in states[check].actors && !states[check].actors[a].closing
      && a in states[take].actors && states[take].actors[a].senders > 0
  {
    var k := j - 1;
    assert Leads(states[k], steps[k], states[k + 1]);
    if steps[k] == TakeSender(op) && states[k].actors[states[k].lookups[op].found].senders > 0 {
      take := k;
      check := FlagWasDown(states, steps, k, op);
    } else {
      check, take := FoundWasOpen(states, steps, k, op);
    }
  }

  /** A lookup in progress always has a step of its own. */
  lemma {:induction false} LookupsCanGoOn(states: seq<State>, steps: seq<Step>, i: nat, op: OpId)
    requires Run(states, steps) && i < |states| && op in states[i].lookups
    ensures Enabled(states[i], Check(op)) || Enabled(states[i], TakeSender(op)) || Enabled(states[i], Remove(op))
  {
    RunHasInv(states, steps, i);
    assert LookupAgrees(states[i].lookups[op], states[i].actors);
  }

  // What becomes of an actor that is replaced, closed or at its end

  /** After a new actor is registered in its place, an actor is closing, or the attempt to close it has not begun. */
  lemma {:induction false} ReplacedIsClosed(states: seq<State>, steps: seq<Step>, i: nat, j: nat, a: ActorId, name: Name, op: OpId)
    requires Run(states, steps) && i < j < |states| && steps[i] == Insert(a, name, op) && name in states[i].table
    ensures var b := states[i].table[name];
      && b in states[j].actors
      && (states[j].actors[b].closing || (op in states[j].closeOps && states[j].closeOps[op] == CloseOp(b, true, ToRaise)))
    decreases j
  {
    var k := j - 1;
    RunHasInv(states, steps, i);
    assert Leads(states[k], steps[k], states[k + 1]);
    if i < k {
      ReplacedIsClosed(states, steps, i, k, a, name, op);
    }
  }

  /** An actor that is closing and can still be sent to has been sent its Close, or some attempt is on its way to do so. */
  predicate CloseIsComing(actors: map<ActorId, Actor>, closeOps: map<OpId, CloseOp>, a: ActorId)
    requires a in actors
  {
    actors[a].closing && actors[a].senders > 0 && actors[a].closes == 0 ==> exists op :: op in closeOps && PastFlag(closeOps[op], a)
  }

  lemma StepKeepsComing(s: State, step: Step, a: ActorId)
    requires Inv(s) && Enabled(s, step) && a in s.actors && CloseIsComing(s.actors, s.closeOps, a)
    ensures CloseIsComing(Next(s, step).actors, Next(s, step).closeOps, a)
  {
    var s' := Next(s, step);
    if s'.actors[a].closing && s'.actors[a].senders > 0 && s'.actors[a].closes == 0 {
      if step.Raise? && s.closeOps[step.op].target == a && !s.actors[a].closing {
        assert PastFlag(s'.closeOps[step.op], a);
      } else {
        var op :| op in s.closeOps && PastFlag(s.closeOps[op], a);
        assert PastFlag(s'.closeOps[op], a);
      }
    }
  }

  lemma {:induction false} CloseIsNotForgotten(states: seq<State>, steps: seq<Step>, i: nat, a: ActorId)
    requires Run(states, steps) && i < |states| && a in states[i].actors
    ensures CloseIsComing(states[i].actors, states[i].closeOps, a)
  {
    if i > 0 {
      var k := i - 1;
      assert Leads(states[k], steps[k], states[k + 1]);
      RunHasInv(states, steps, k);
      if a in states[k].actors {
        CloseIsNotForgotten(states, steps, k, a);
        StepKeepsComing(states[k], steps[k], a);
      }
    }
  }

  /** An actor that was sent its Close, or has no senders left, can end and clean up; then its own entry is gone. */
  lemma EndedCleansUp(s: State, a: ActorId)
    requires a in s.actors
    ensures s.actors[a].life.Running? && (s.actors[a].closes > 0 || s.actors[a].senders == 0) ==> Enabled(s, EndLoop(a))
    ensures s.actors[a].life.Ended? ==> Enabled(s, CleanUp(a))
    ensures s.actors[a].life.Ended? ==>
      var t := Next(s, CleanUp(a)).table;
      (s.actors[a].name in t ==> t[s.actors[a].name] != a) && forall n :: n != s.actors[a].name && n in s.table ==> n in t && t[n] == s.table[n]
  {
  }
}
