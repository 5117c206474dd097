/** The response registry is linearizable and loses no value, over every run. */
module ResponseTheorems {
  import opened Wrappers
  import opened ResponseProtocol
  import opened ResponseInvariant

  lemma StepKeepsInv<T>(s: State<T>, step: Step<T>, s': State<T>)
    requires Inv(s) && Leads(s, step, s')
    ensures Inv(s')
  {
    NextKeepsInv(s, step);
  }

  lemma {:induction false} RunHasInv<T>(states: seq<State<T>>, steps: seq<Step<T>>, i: nat)
    requires Run(states, steps) && i < |states|
    ensures Inv(states[i])
  {
    if i == 0 {
      InitHasInv(states[0]);
    } else {
      var k := i - 1;
      RunHasInv(states, steps, k);
      assert Leads(states[k], steps[k], states[k + 1]);
      StepKeepsInv(states[k], steps[k], states[k + 1]);
    }
  }

  // History only grows.

  ghost predicate Grows<T>(h: History<T>, h': History<T>) {
    && h.log <= h'.log && h.used <= h'.used
    && (forall op :: op in h.done ==> op in h'.done && h'.done[op] == h.done[op])
    && (forall op :: op in h.decided ==> op in h'.decided && h'.decided[op] == h.decided[op])
  }

  lemma RefuseAllGrows<T>(h: History<T>, ops: map<OpId, Op<T>>, order: seq<OpId>)
    requires forall i :: 0 <= i < |order| ==> order[i] in ops && order[i] !in h.decided
    requires forall i, j :: 0 <= i < j < |order| ==> order[i] != order[j]
    ensures Grows(h, RefuseAll(h, ops, order))
    ensures forall op :: op in RefuseAll(h, ops, order).decided ==> op in h.decided || op in order
  {
    if order != [] {
      RefuseAllGrows(h, ops, order[..|order| - 1]);
    }
  }

  lemma FinishGrows<T>(s: State<T>, op: OpId, event: Event<T>)
    requires PendingAgree(s.ops, s.hist) && op in s.ops
    ensures Grows(s.hist, Finish(s, op, s.ops[op].invokedAt, event).hist)
  {
    assert PendingAgrees(op, s.ops[op], s.hist);
  }

  lemma KillGrows<T>(s: State<T>, slot: SlotId, order: seq<OpId>)
    requires Inv(s) && CanKill(s, slot, order)
    ensures Grows(s.hist, Kill(s, slot, order).hist)
  {
    var Lease(key, Unlinked(op, invokedAt)) := s.table.leases[slot];
    assert DropAgrees(s.table.leases[slot].phase, s.ops, s.hist);
    var h := Complete(Log(s.hist, op, Dropped(key)), op, Dropped(key), invokedAt);
    assert Grows(s.hist, h);
    forall i | 0 <= i < |order| ensures order[i] !in h.decided {
      assert OpAgrees(s.table, order[i], s.ops[order[i]], s.hist.decided);
    }
    RefuseAllGrows(h, s.ops, order);
  }

  lemma ActGrows<T>(s: State<T>, op: OpId)
    requires PendingAgree(s.ops, s.hist) && CanAct(s, op)
    ensures Grows(s.hist, Act(s, op).hist)
  {
    var slot := s.slots[s.ops[op].slot.value];
    match s.ops[op].call
    case Publish(key, payload) => FinishGrows(s, op, Published(key, payload, PublishOn(slot, payload).1));
    case Take(key) => FinishGrows(s, op, Taken(key, TakeFrom(slot).1));
  }

  lemma RegisterGrows<T>(s: State<T>, op: OpId, key: Key, slot: SlotId)
    requires HistoryAgrees(s.hist) && CanRegister(s, op, key, slot)
    ensures Grows(s.hist, Register(s, op, key, slot).hist)
  {
    AnsweredGrows(s.hist, op, Registered(key, false));
    AnsweredGrows(s.hist, op, Registered(key, true));
  }

  lemma AnsweredGrows<T>(h: History<T>, op: OpId, event: Event<T>)
    requires HistoryAgrees(h) && op !in h.used
    ensures Grows(h, Answered(h, op, event))
  {
  }

  lemma StepGrows<T>(s: State<T>, step: Step<T>)
    requires Inv(s) && Enabled(s, step)
    ensures Grows(s.hist, Next(s, step).hist)
  {
    match step
    case RegisterStep(op, key, slot) => RegisterGrows(s, op, key, slot);
    case FindStep(op) => FinishGrows(s, op, Refused(s.ops[op].call));
    case ActStep(op) => ActGrows(s, op);
    case KillStep(slot, order) => KillGrows(s, slot, order);
    case _ =>
  }

  lemma GrowsOnward<T>(h: History<T>, h': History<T>, h'': History<T>)
    requires Grows(h, h') && Grows(h', h'')
    ensures Grows(h, h'')
  {
  }

  lemma RunStepGrows<T>(states: seq<State<T>>, steps: seq<Step<T>>, i: nat)
    requires Run(states, steps) && i < |steps|
    ensures Grows(states[i].hist, states[i + 1].hist)
  {
    RunHasInv(states, steps, i);
    assert Leads(states[i], steps[i], states[i + 1]);
    StepGrows(states[i], steps[i]);
  }

  lemma {:induction false} RunGrows<T>(states: seq<State<T>>, steps: seq<Step<T>>, i: nat, j: nat)
    requires Run(states, steps) && i <= j < |states|
    ensures Grows(states[i].hist, states[j].hist)
    decreases j
  {
    if i < j {
      var k := j - 1;
      RunGrows(states, steps, i, k);
      RunStepGrows(states, steps, k);
      assert states[k + 1] == states[j];
      GrowsOnward(states[i].hist, states[k].hist, states[j].hist);
    }
  }

  lemma LaterInLog<T>(h: History<T>, h': History<T>, op: OpId)
    requires HistoryAgrees(h) && HistoryAgrees(h') && h.log <= h'.log && op !in h.used && op in h'.decided
    ensures h'.decided[op] >= |h.log|
  {
    assert forall a :: 0 <= a < |h.log| ==> h'.log[a] == h.log[a] && h.log[a].op in h.used;
    assert h'.log[h'.decided[op]].op == op;
  }

  /** A call made later than a moment takes effect later than everything that had taken effect by then. */
  lemma {:induction false} CalledLater<T>(states: seq<State<T>>, steps: seq<Step<T>>, i: nat, j: nat, op: OpId)
    requires Run(states, steps) && i <= j < |states| && op !in states[i].hist.used && op in states[j].hist.decided
    ensures states[j].hist.decided[op] >= |states[i].hist.log|
  {
    RunHasInv(states, steps, i);
    RunHasInv(states, steps, j);
    RunGrows(states, steps, i, j);
    LaterInLog(states[i].hist, states[j].hist, op);
  }

  /** An operation that has returned is in the log with the result it returned. */
  ghost predicate ReturnsWhatIsLogged<T>(h: History<T>) {
    forall op :: op in h.done ==> exists at :: 0 <= at < |h.log| && h.log[at] == Entry(op, h.done[op].event)
  }

  ghost predicate LogsOnce<T>(h: History<T>) {
    forall a, b :: 0 <= a < b < |h.log| ==> h.log[a].op != h.log[b].op
  }

  /** What had returned by the earlier moment comes before what had not been called by then. */
  ghost predicate KeepsRealTime<T>(earlier: History<T>, h: History<T>) {
    forall a, b :: 0 <= a < |h.log| && 0 <= b < |h.log| && h.log[a].op in earlier.done && h.log[b].op !in earlier.used ==> a < b
  }

  lemma HistoryIsSequential<T>(h: History<T>)
    requires HistoryAgrees(h)
    ensures ReturnsWhatIsLogged(h) && LogsOnce(h)
  {
    forall op | op in h.done ensures exists at :: 0 <= at < |h.log| && h.log[at] == Entry(op, h.done[op].event) {
      assert DoneAgrees(h, op);
    }
  }

  lemma {:induction false} RealTimeIsKept<T>(states: seq<State<T>>, steps: seq<Step<T>>, i: nat, j: nat)
    requires Run(states, steps) && i <= j < |states|
    ensures KeepsRealTime(states[i].hist, states[j].hist)
  {
    RunHasInv(states, steps, i);
    RunHasInv(states, steps, j);
    RunGrows(states, steps, i, j);
    var h, h' := states[i].hist, states[j].hist;
    forall a, b | 0 <= a < |h'.log| && 0 <= b < |h'.log| && h'.log[a].op in h.done && h'.log[b].op !in h.used ensures a < b {
      assert DoneAgrees(h, h'.log[a].op);
      CalledLater(states, steps, i, j, h'.log[b].op);
    }
  }

  /**
   * Linearizability. At every moment of every run the log is a sequential history of the atomic map
   * that ends in the present cells; an operation that has returned is in it, once, with the result it
   * returned; it comes before every operation called after its return; and the log at an earlier
   * moment is a prefix.
   */
  lemma {:induction false} Linearizable<T>(states: seq<State<T>>, steps: seq<Step<T>>, i: nat, j: nat)
    requires Run(states, steps) && i <= j < |states|
    ensures var s := states[j];
      LiveInSlots(s.table.live, s.slots) && Replay(s.hist.log) == Some(Cells(s.table.live, s.slots))
    ensures ReturnsWhatIsLogged(states[j].hist) && LogsOnce(states[j].hist)
    ensures states[i].hist.log <= states[j].hist.log && KeepsRealTime(states[i].hist, states[j].hist)
  {
    RunHasInv(states, steps, j);
    RunGrows(states, steps, i, j);
    HistoryIsSequential(states[j].hist);
    RealTimeIsKept(states, steps, i, j);
  }

  /** What an operation returned never changes. */
  lemma {:induction false} ResultsStand<T>(states: seq<State<T>>, steps: seq<Step<T>>, i: nat, j: nat, op: OpId)
    requires Run(states, steps) && i <= j < |states| && op in states[i].hist.done
    ensures op in states[j].hist.done && states[j].hist.done[op] == states[i].hist.done[op]
  {
    RunGrows(states, steps, i, j);
  }

  /**
   * A drop can always decide the holders of its slot: some order of them exists. So the history
   * variables never hold back a drop.
   */
  lemma {:induction false} HoldersCanBeOrdered(ops: set<OpId>) returns (order: seq<OpId>)
    ensures Enumerates(order, ops)
  {
    if op :| op in ops {
      var rest := HoldersCanBeOrdered(ops - {op});
      order := rest + [op];
      forall o | o in ops ensures o in order {
        assert o != op ==> o in rest;
      }
    } else {
      order := [];
    }
  }

  // Values.

  lemma StepKeepsValues<T>(s: State<T>, step: Step<T>)
    requires Enabled(s, step)
    ensures s.home.Keys <= Next(s, step).home.Keys
  {
  }

  lemma {:induction false} PublishedHasHome<T>(states: seq<State<T>>, steps: seq<Step<T>>, i: nat, j: nat)
    requires Run(states, steps) && i < j < |states| && steps[i].InvokeStep? && steps[i].call.Publish?
    ensures steps[i].op in states[j].home
    decreases j
  {
    assert Leads(states[j - 1], steps[j - 1], states[j - 1 + 1]);
    if i < j - 1 {
      PublishedHasHome(states, steps, i, j - 1);
      StepKeepsValues(states[j - 1], steps[j - 1]);
    }
  }

  /**
   * Conservation. From the moment a value is handed to publish it is in exactly one place: with the
   * publisher, in one slot, with one dropped lease, delivered to one take, or destroyed.
   */
  lemma {:induction false} InExactlyOnePlace<T>(states: seq<State<T>>, steps: seq<Step<T>>, i: nat, j: nat)
    requires Run(states, steps) && i < j < |states| && steps[i].InvokeStep? && steps[i].call.Publish?
    ensures exists place :: IsAt(states[j], steps[i].op, place) && forall other :: IsAt(states[j], steps[i].op, other) ==> other == place
  {
    RunHasInv(states, steps, j);
    PublishedHasHome(states, steps, i, j);
    assert IsAt(states[j], steps[i].op, states[j].home[steps[i].op]);
  }

  /** A filled slot belongs to a live lease and is active. */
  lemma {:induction false} FilledSlotIsLeased<T>(states: seq<State<T>>, steps: seq<Step<T>>, i: nat, slot: SlotId)
    requires Run(states, steps) && i < |states| && slot in states[i].slots && states[i].slots[slot].value.Some?
    ensures slot in states[i].table.leases && states[i].slots[slot].active
  {
    RunHasInv(states, steps, i);
  }

  /** Once all leases are gone and nothing is in progress, no entry and no value is left behind. */
  lemma {:induction false} NothingLeaks<T>(states: seq<State<T>>, steps: seq<Step<T>>, i: nat)
    requires Run(states, steps) && i < |states|
    requires states[i].table.leases == map[] && states[i].ops == map[] && states[i].dying == map[]
    ensures states[i].table.entries == map[] && states[i].table.locks == map[]
    ensures forall slot :: slot in states[i].slots ==> states[i].slots[slot].value.None?
    ensures forall token :: token in states[i].home ==> states[i].home[token].DeliveredTo? || states[i].home[token].Destroyed?
  {
    RunHasInv(states, steps, i);
    var s := states[i];
    assert forall key :: key !in s.table.entries;
    assert forall shard :: shard !in s.table.locks;
    forall token | token in s.home ensures s.home[token].DeliveredTo? || s.home[token].Destroyed? {
      assert IsAt(s, token, s.home[token]);
    }
  }

  // What the atomic map promises, and that nothing waits for ever

  /**
   * The life of a key in the atomic map: registered once, published to once, taken once and then consumed, and free
   * again when its lease is dropped; everything else in between is refused and changes nothing.
   */
  lemma AtomicMapDelivers<T>(cells: map<Key, Cell<T>>, key: Key, p: Payload<T>, q: Payload<T>)
    requires key !in cells
    ensures Apply(cells, Published(key, p, false)) == Some(cells) && Apply(cells, Taken(key, None)) == Some(cells)
    ensures Apply(cells, Dropped(key)).None?
    ensures var waiting := Apply(cells, Registered(key, true));
      && waiting.Some? && Apply(waiting.value, Registered(key, false)) == waiting
      && var ready := Apply(waiting.value, Published(key, p, true));
      && ready.Some? && Apply(ready.value, Published(key, q, false)) == ready && Apply(ready.value, Registered(key, false)) == ready
      && var consumed := Apply(ready.value, Taken(key, Some(p)));
      && consumed.Some? && Apply(ready.value, Taken(key, None)).None?
      && Apply(consumed.value, Taken(key, None)) == consumed && Apply(consumed.value, Published(key, q, false)) == consumed
      && Apply(consumed.value, Dropped(key)) == Some(cells)
    ensures var waiting := Apply(cells, Registered(key, true)).value;
      var early := Apply(waiting, Taken(key, None));
      early.Some? && Apply(early.value, Published(key, p, false)) == early && Apply(early.value, Dropped(key)) == Some(cells)
  {
    assert cells[key := Waiting] - {key} == cells;
    assert cells[key := Waiting][key := Consumed] - {key} == cells;
    assert cells[key := Waiting][key := Ready(p)][key := Consumed] - {key} == cells;
    assert cells[key := Waiting][key := Consumed][key := Consumed] == cells[key := Waiting][key := Consumed];
    var consumed := cells[key := Waiting][key := Ready(p)][key := Consumed];
    assert consumed[key := Consumed] == consumed;
  }

  /** What happens to one key is nothing to another. */
  lemma OtherKeysStay<T>(cells: map<Key, Cell<T>>, event: Event<T>, other: Key)
    requires Apply(cells, event).Some? && other != event.key
    ensures var after := Apply(cells, event).value;
      (other in after <==> other in cells) && (other in cells ==> after[other] == cells[other])
  {
  }

  /** A drop that has taken its shard's lock can go on to let it go. */
  lemma {:induction false} LocksAreLetGo<T>(states: seq<State<T>>, steps: seq<Step<T>>, i: nat, shard: nat) returns (step: Step<T>)
    requires Run(states, steps) && i < |states| && shard in states[i].table.locks
    ensures Enabled(states[i], step) && shard !in Next(states[i], step).table.locks
  {
    RunHasInv(states, steps, i);
    var s := states[i];
    var slot := s.table.locks[shard];
    assert LeaseAgrees(s.table, slot);
    var order := HoldersCanBeOrdered(Holders(s, slot));
    step := KillStep(slot, order);
  }

  /** A publish or take in progress has a step of its own, unless a drop holds the lock of its shard. */
  lemma {:induction false} OperationsCanGoOn<T>(states: seq<State<T>>, steps: seq<Step<T>>, i: nat, op: OpId)
    requires Run(states, steps) && i < |states| && op in states[i].ops
    ensures Enabled(states[i], FindStep(op)) || Enabled(states[i], ActStep(op)) || states[i].ops[op].call.key.shard in states[i].table.locks
    ensures states[i].ops[op].slot.Some? ==> Enabled(states[i], ActStep(op))
  {
    RunHasInv(states, steps, i);
    var s := states[i];
    assert OpAgrees(s.table, op, s.ops[op], s.hist.decided);
  }

  /** A lease can be dropped whenever its shard is not locked, and what a dropped lease holds can be destroyed at any time. */
  lemma LeasesCanBeDropped<T>(s: State<T>, op: OpId, slot: SlotId)
    requires op !in s.hist.used
    ensures slot in s.table.leases && s.table.leases[slot].phase.Held? && s.table.leases[slot].key.shard !in s.table.locks
      ==> Enabled(s, UnlinkStep(op, slot))
    ensures slot in s.dying ==> Enabled(s, DestroyStep(slot)) && slot !in Next(s, DestroyStep(slot)).dying
  {
  }
}
