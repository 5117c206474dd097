/** What every step of the response registry keeps. */
module ResponseInvariant {
  import opened Wrappers
  import opened ResponseProtocol

  // The atomic map behind a state.

  ghost function CellOf<T>(slot: Slot<T>): Cell<T> {
    if !slot.active then Consumed else if slot.value.None? then Waiting else Ready(slot.value.value)
  }

  ghost predicate LiveInSlots<T>(live: map<Key, SlotId>, slots: map<SlotId, Slot<T>>) {
    forall key :: key in live ==> live[key] in slots
  }

  ghost function Cells<T>(live: map<Key, SlotId>, slots: map<SlotId, Slot<T>>): map<Key, Cell<T>>
    requires LiveInSlots(live, slots)
  {
    map key | key in live :: CellOf(slots[live[key]])
  }

  // The invariant, in parts.

  ghost predicate TableAgrees(t: Table) {
    && (forall key :: key in t.entries ==> t.entries[key] in t.leases && t.leases[t.entries[key]] == Lease(key, Held))
    && (forall i :: i in t.locks ==> t.locks[i] in t.leases && t.leases[t.locks[i]].phase.Unlinked? && t.leases[t.locks[i]].key.shard == i)
    && (forall slot :: slot in t.leases ==> LeaseAgrees(t, slot))
    && (forall key :: key in t.live ==> t.live[key] in t.leases && t.leases[t.live[key]].key == key)
  }

  ghost predicate LeaseAgrees(t: Table, slot: SlotId)
    requires slot in t.leases
  {
    var key := t.leases[slot].key;
    && slot in t.slotKey && t.slotKey[slot] == key
    && key in t.live && t.live[key] == slot
    && (t.leases[slot].phase.Held? ==> key in t.entries && t.entries[key] == slot)
    && (t.leases[slot].phase.Unlinked? ==> key.shard in t.locks && t.locks[key.shard] == slot)
  }

  ghost predicate SlotsAgree<T>(t: Table, slots: map<SlotId, Slot<T>>, dying: map<SlotId, Option<Payload<T>>>) {
    && slots.Keys == t.slotKey.Keys
    && (forall slot :: slot in slots && !slots[slot].active ==> slots[slot].value.None?)
    && (forall slot :: slot in slots && slot !in t.leases ==> !slots[slot].active)
    && (forall slot :: slot in dying ==> slot in slots && slot !in t.leases)
  }

  ghost predicate OpsAgree<T>(t: Table, ops: map<OpId, Op<T>>, decided: map<OpId, nat>) {
    forall op :: op in ops ==> OpAgrees(t, op, ops[op], decided)
  }

  ghost predicate OpAgrees<T>(t: Table, op: OpId, o: Op<T>, decided: map<OpId, nat>) {
    && (o.call.Publish? ==> o.call.payload.token == op)
    && (o.slot.None? ==> op !in decided)
    && (o.slot.Some? ==> o.slot.value in t.slotKey && t.slotKey[o.slot.value] == o.call.key && (o.slot.value in t.leases <==> op !in decided))
  }

  /** The log and the operations that have taken effect correspond one to one; each of those that have returned took effect before. */
  ghost predicate HistoryAgrees<T>(h: History<T>) {
    && (forall op :: op in h.decided ==> h.decided[op] < |h.log| && h.log[h.decided[op]].op == op)
    && (forall i :: 0 <= i < |h.log| ==> h.log[i].op in h.decided && h.decided[h.log[i].op] == i)
    && (forall op :: op in h.done ==> DoneAgrees(h, op))
    && h.decided.Keys <= h.used && h.done.Keys <= h.used
  }

  /** An operation takes effect between its call and its return, and returns what the log says. */
  ghost predicate DoneAgrees<T>(h: History<T>, op: OpId)
    requires op in h.done
  {
    var d := h.done[op];
    op in h.decided && d.invokedAt <= h.decided[op] < d.returnedAt <= |h.log| && h.log[h.decided[op]] == Entry(op, d.event)
  }

  ghost predicate PendingAgree<T>(ops: map<OpId, Op<T>>, h: History<T>) {
    forall op :: op in ops ==> PendingAgrees(op, ops[op], h)
  }

  ghost predicate PendingAgrees<T>(op: OpId, o: Op<T>, h: History<T>) {
    && op in h.used && op !in h.done
    && o.invokedAt <= |h.log|
    && (op in h.decided ==> o.invokedAt <= h.decided[op] < |h.log| && h.log[h.decided[op]] == Entry(op, Refused(o.call)))
  }

  ghost predicate DropsAgree<T>(leases: map<SlotId, Lease>, ops: map<OpId, Op<T>>, h: History<T>) {
    && (forall slot :: slot in leases && leases[slot].phase.Unlinked? ==> DropAgrees(leases[slot].phase, ops, h))
    && (forall a, b :: a in leases && b in leases && a != b && leases[a].phase.Unlinked? && leases[b].phase.Unlinked? ==>
          leases[a].phase.op != leases[b].phase.op)
  }

  ghost predicate DropAgrees<T>(phase: Phase, ops: map<OpId, Op<T>>, h: History<T>)
    requires phase.Unlinked?
  {
    phase.op in h.used && phase.op !in ops && phase.op !in h.done && phase.op !in h.decided && phase.invokedAt <= |h.log|
  }

  /** Where a value physically is. */
  ghost predicate IsAt<T>(s: State<T>, token: OpId, place: Place) {
    match place
    case WithPublisher => token in s.ops && s.ops[token].call.Publish?
    case InSlot(slot) => slot in s.slots && s.slots[slot].value.Some? && s.slots[slot].value.value.token == token
    case WithDroppedLease(slot) => slot in s.dying && s.dying[slot].Some? && s.dying[slot].value.token == token
    case DeliveredTo(op) => op in s.hist.done && Delivers(s.hist.done[op].event, token)
    case Destroyed => token in s.destroyed
  }

  ghost predicate Delivers<T>(event: Event<T>, token: OpId) {
    event.Taken? && event.got.Some? && event.got.value.token == token
  }

  /** Every value ever published is in the one place that its history says, and no other value is anywhere. */
  ghost predicate HomesAgree<T>(s: State<T>) {
    && (forall token :: token in s.home ==> token in s.hist.used && IsAt(s, token, s.home[token]))
    && (forall token, place :: IsAt(s, token, place) ==> token in s.home && s.home[token] == place)
  }

  /** The atomic map, run on the log, has reached the present cells. */
  ghost predicate Replays<T>(log: seq<Entry<T>>, live: map<Key, SlotId>, slots: map<SlotId, Slot<T>>) {
    LiveInSlots(live, slots) && Replay(log) == Some(Cells(live, slots))
  }

  ghost predicate Inv<T>(s: State<T>) {
    && TableAgrees(s.table) && SlotsAgree(s.table, s.slots, s.dying)
    && OpsAgree(s.table, s.ops, s.hist.decided) && HistoryAgrees(s.hist) && PendingAgree(s.ops, s.hist)
    && DropsAgree(s.table.leases, s.ops, s.hist) && HomesAgree(s) && Replays(s.hist.log, s.table.live, s.slots)
  }

  lemma InitHasInv<T>(s: State<T>)
    requires Init(s)
    ensures Inv(s)
  {
    assert Cells(s.table.live, s.slots) == map[];
    forall token, place ensures !IsAt(s, token, place) {
      NothingAtFirst(s, token, place);
    }
  }

  lemma NothingAtFirst<T>(s: State<T>, token: OpId, place: Place)
    requires Init(s)
    ensures !IsAt(s, token, place)
  {
  }

  // The log.

  lemma ReplayExtends<T>(log: seq<Entry<T>>, entry: Entry<T>)
    ensures Replay(log + [entry]) == if Replay(log).None? then None else Apply(Replay(log).value, entry.event)
  {
    assert (log + [entry])[..|log|] == log;
  }

  lemma LogKeepsHistory<T>(h: History<T>, op: OpId, event: Event<T>)
    requires HistoryAgrees(h) && op in h.used && op !in h.decided
    ensures HistoryAgrees(Log(h, op, event))
  {
    var h' := Log(h, op, event);
    forall o | o in h'.done ensures DoneAgrees(h', o) {
      assert DoneAgrees(h, o);
    }
  }

  lemma CompleteKeepsHistory<T>(h: History<T>, op: OpId, event: Event<T>, invokedAt: nat)
    requires HistoryAgrees(h) && op in h.decided && op !in h.done
    requires invokedAt <= h.decided[op] && h.log[h.decided[op]].event == event
    ensures HistoryAgrees(Complete(h, op, event, invokedAt))
  {
    var h' := Complete(h, op, event, invokedAt);
    forall o | o in h'.done ensures DoneAgrees(h', o) {
      assert o != op ==> DoneAgrees(h, o);
    }
  }

  lemma AnsweredKeepsHistory<T>(h: History<T>, op: OpId, event: Event<T>)
    requires HistoryAgrees(h) && op !in h.used
    ensures HistoryAgrees(Answered(h, op, event))
  {
    var h0 := h.(used := h.used + {op});
    assert HistoryAgrees(h0) by {
      forall o | o in h0.done ensures DoneAgrees(h0, o) {
        assert DoneAgrees(h, o);
      }
    }
    LogKeepsHistory(h0, op, event);
    CompleteKeepsHistory(Log(h0, op, event), op, event, |h.log|);
    assert Complete(Log(h0, op, event), op, event, |h.log|) == Answered(h, op, event);
  }

  lemma PendingKept<T>(ops: map<OpId, Op<T>>, h: History<T>, h': History<T>, op: OpId)
    requires PendingAgree(ops, h) && op !in ops && h.log <= h'.log && h'.used == h.used + {op}
    requires h'.done.Keys <= h.done.Keys + {op}
    requires forall o :: o != op ==> (o in h.decided <==> o in h'.decided) && (o in h.decided ==> h'.decided[o] == h.decided[o])
    ensures PendingAgree(ops, h')
  {
    forall o | o in ops ensures PendingAgrees(o, ops[o], h') {
      assert PendingAgrees(o, ops[o], h);
    }
  }

  lemma DropsKept<T>(leases: map<SlotId, Lease>, ops: map<OpId, Op<T>>, h: History<T>, ops': map<OpId, Op<T>>, h': History<T>, op: OpId)
    requires DropsAgree(leases, ops, h) && |h.log| <= |h'.log| && h'.used == h.used + {op}
    requires forall slot :: slot in leases && leases[slot].phase.Unlinked? ==> leases[slot].phase.op != op
    requires h'.done.Keys <= h.done.Keys + {op} && h'.decided.Keys <= h.decided.Keys + {op} && ops'.Keys <= ops.Keys + {op}
    ensures DropsAgree(leases, ops', h')
  {
    forall slot | slot in leases && leases[slot].phase.Unlinked? ensures DropAgrees(leases[slot].phase, ops', h') {
      assert DropAgrees(leases[slot].phase, ops, h);
    }
  }

  // Register

  /** A key can be registered exactly when the atomic map has no cell for it. */
  lemma UpgradesIfLive<T>(s: State<T>, key: Key)
    requires TableAgrees(s.table) && key.shard !in s.table.locks
    ensures Upgrades(s, key) <==> key in s.table.live
    ensures key in s.table.live ==> key in s.table.entries && s.table.entries[key] == s.table.live[key]
  {
    if key in s.table.live {
      assert LeaseAgrees(s.table, s.table.live[key]);
    }
  }

  lemma AddLeaseKeepsTable(t: Table, key: Key, slot: SlotId)
    requires TableAgrees(t) && slot !in t.slotKey && key !in t.live && key.shard !in t.locks
    ensures TableAgrees(AddLease(t, key, slot))
  {
    var t' := AddLease(t, key, slot);
    forall l | l in t'.leases ensures LeaseAgrees(t', l) {
      assert l != slot ==> LeaseAgrees(t, l);
    }
    forall k | k in t'.entries ensures t'.entries[k] in t'.leases && t'.leases[t'.entries[k]] == Lease(k, Held) {
      assert k != key ==> LeaseAgrees(t, t.entries[k]);
    }
  }

  lemma AddLeaseKeepsOps<T>(t: Table, ops: map<OpId, Op<T>>, decided: map<OpId, nat>, key: Key, slot: SlotId)
    requires OpsAgree(t, ops, decided) && slot !in t.slotKey
    ensures OpsAgree(AddLease(t, key, slot), ops, decided)
  {
    forall op | op in ops ensures OpAgrees(AddLease(t, key, slot), op, ops[op], decided) {
      assert OpAgrees(t, op, ops[op], decided);
    }
  }

  lemma AddLeaseKeepsSlots<T>(t: Table, slots: map<SlotId, Slot<T>>, dying: map<SlotId, Option<Payload<T>>>, key: Key, slot: SlotId)
    requires SlotsAgree(t, slots, dying) && slot !in slots
    ensures SlotsAgree(AddLease(t, key, slot), slots[slot := Slot(true, None)], dying)
  {
  }

  lemma AddLeaseKeepsDrops<T>(leases: map<SlotId, Lease>, ops: map<OpId, Op<T>>, h: History<T>, key: Key, slot: SlotId)
    requires DropsAgree(leases, ops, h)
    ensures DropsAgree(leases[slot := Lease(key, Held)], ops, h)
  {
  }

  lemma OpsKept<T>(t: Table, ops: map<OpId, Op<T>>, decided: map<OpId, nat>, op: OpId, at: nat)
    requires OpsAgree(t, ops, decided) && op !in ops
    ensures OpsAgree(t, ops, decided[op := at])
  {
    forall o | o in ops ensures OpAgrees(t, o, ops[o], decided[op := at]) {
      assert OpAgrees(t, o, ops[o], decided);
    }
  }

  lemma InUseKeepsHomes<T>(s: State<T>, op: OpId, key: Key)
    requires HomesAgree(s) && HistoryAgrees(s.hist) && op !in s.hist.used
    ensures HomesAgree(InUse(s, op, key))
  {
    forall token, place ensures IsAt(InUse(s, op, key), token, place) == IsAt(s, token, place) {
    }
  }

  lemma AcceptKeepsHomes<T>(s: State<T>, op: OpId, key: Key, slot: SlotId)
    requires HomesAgree(s) && HistoryAgrees(s.hist) && op !in s.hist.used && slot !in s.slots
    ensures HomesAgree(Accept(s, op, key, slot))
  {
    forall token, place ensures IsAt(Accept(s, op, key, slot), token, place) == IsAt(s, token, place) {
    }
  }

  lemma AcceptReplays<T>(log: seq<Entry<T>>, t: Table, slots: map<SlotId, Slot<T>>, op: OpId, key: Key, slot: SlotId)
    requires Replays(log, t.live, slots) && key !in t.live && slot !in slots
    ensures Replays(log + [Entry(op, Registered(key, true))], AddLease(t, key, slot).live, slots[slot := Slot(true, None)])
  {
    ReplayExtends(log, Entry(op, Registered(key, true)));
    assert Cells(t.live[key := slot], slots[slot := Slot(true, None)]) == Cells(t.live, slots)[key := Waiting];
  }

  lemma AnsweredKeepsRest<T>(s: State<T>, op: OpId, event: Event<T>)
    requires Inv(s) && op !in s.hist.used
    ensures var h := Answered(s.hist, op, event);
      HistoryAgrees(h) && PendingAgree(s.ops, h) && DropsAgree(s.table.leases, s.ops, h) && OpsAgree(s.table, s.ops, h.decided)
  {
    var h := Answered(s.hist, op, event);
    AnsweredKeepsHistory(s.hist, op, event);
    PendingKept(s.ops, s.hist, h, op);
    DropsKept(s.table.leases, s.ops, s.hist, s.ops, h, op);
    OpsKept(s.table, s.ops, s.hist.decided, op, |s.hist.log|);
  }

  lemma InUseKeepsInv<T>(s: State<T>, op: OpId, key: Key)
    requires Inv(s) && op !in s.hist.used && key in s.table.live
    ensures Inv(InUse(s, op, key))
  {
    InUseKeepsHomes(s, op, key);
    AnsweredKeepsRest(s, op, Registered(key, false));
    ReplayExtends(s.hist.log, Entry(op, Registered(key, false)));
  }

  lemma AcceptKeepsInv<T>(s: State<T>, op: OpId, key: Key, slot: SlotId)
    requires Inv(s) && op !in s.hist.used && key !in s.table.live && slot !in s.slots && key.shard !in s.table.locks
    ensures Inv(Accept(s, op, key, slot))
  {
    AcceptKeepsHomes(s, op, key, slot);
    AnsweredKeepsRest(s, op, Registered(key, true));
    AcceptReplays(s.hist.log, s.table, s.slots, op, key, slot);
    AddLeaseKeepsTable(s.table, key, slot);
    AddLeaseKeepsOps(s.table, s.ops, s.hist.decided[op := |s.hist.log|], key, slot);
    AddLeaseKeepsSlots(s.table, s.slots, s.dying, key, slot);
    AddLeaseKeepsDrops(s.table.leases, s.ops, Answered(s.hist, op, Registered(key, true)), key, slot);
  }

  lemma RegisterKeepsInv<T>(s: State<T>, op: OpId, key: Key, slot: SlotId)
    requires Inv(s) && CanRegister(s, op, key, slot)
    ensures Inv(Register(s, op, key, slot))
  {
    UpgradesIfLive(s, key);
    if Upgrades(s, key) {
      InUseKeepsInv(s, op, key);
    } else {
      AcceptKeepsInv(s, op, key, slot);
    }
  }

  // Invoke

  lemma InvokeKeepsHomes<T>(s: State<T>, op: OpId, call: Call<T>)
    requires HomesAgree(s) && PendingAgree(s.ops, s.hist) && CanInvoke(s, op, call)
    ensures HomesAgree(Invoke(s, op, call))
  {
    var s' := Invoke(s, op, call);
    forall token, place | token != op ensures IsAt(s', token, place) == IsAt(s, token, place) {
    }
    forall place | IsAt(s', op, place) ensures call.Publish? && place == WithPublisher {
      assert place != WithPublisher ==> IsAt(s, op, place);
    }
  }

  lemma CallKeepsHistory<T>(s: State<T>, op: OpId, h: History<T>)
    requires HistoryAgrees(s.hist) && PendingAgree(s.ops, s.hist) && DropsAgree(s.table.leases, s.ops, s.hist)
    requires op !in s.hist.used && h == s.hist.(used := s.hist.used + {op})
    ensures HistoryAgrees(h) && PendingAgree(s.ops, h) && DropsAgree(s.table.leases, s.ops, h)
  {
    PendingKept(s.ops, s.hist, h, op);
    DropsKept(s.table.leases, s.ops, s.hist, s.ops, h, op);
    forall o | o in h.done ensures DoneAgrees(h, o) {
      assert DoneAgrees(s.hist, o);
    }
  }

  lemma InvokeKeepsOps<T>(s: State<T>, op: OpId, call: Call<T>)
    requires OpsAgree(s.table, s.ops, s.hist.decided) && HistoryAgrees(s.hist) && PendingAgree(s.ops, s.hist) && CanInvoke(s, op, call)
    ensures var s' := Invoke(s, op, call); OpsAgree(s'.table, s'.ops, s'.hist.decided) && PendingAgree(s'.ops, s'.hist)
  {
    var s' := Invoke(s, op, call);
    forall o | o in s'.ops ensures OpAgrees(s'.table, o, s'.ops[o], s'.hist.decided) && PendingAgrees(o, s'.ops[o], s'.hist) {
      assert o != op ==> OpAgrees(s.table, o, s.ops[o], s.hist.decided) && PendingAgrees(o, s.ops[o], s.hist);
    }
  }

  lemma InvokeKeepsInv<T>(s: State<T>, op: OpId, call: Call<T>)
    requires Inv(s) && CanInvoke(s, op, call)
    ensures Inv(Invoke(s, op, call))
  {
    var s' := Invoke(s, op, call);
    InvokeKeepsHomes(s, op, call);
    CallKeepsHistory(s, op, s'.hist);
    DropsKept(s.table.leases, s.ops, s.hist, s'.ops, s'.hist, op);
    InvokeKeepsOps(s, op, call);
  }

  // Return from publish and take

  lemma LogOnceKeepsHistory<T>(h: History<T>, op: OpId, event: Event<T>, invokedAt: nat)
    requires HistoryAgrees(h) && op in h.used && op !in h.done && invokedAt <= |h.log|
    requires op in h.decided ==> invokedAt <= h.decided[op] && h.log[h.decided[op]].event == event
    ensures HistoryAgrees(Complete(LogOnce(h, op, event), op, event, invokedAt))
  {
    if op !in h.decided {
      LogKeepsHistory(h, op, event);
    }
    CompleteKeepsHistory(LogOnce(h, op, event), op, event, invokedAt);
  }

  lemma FinishKeepsHistory<T>(s: State<T>, op: OpId, event: Event<T>)
    requires HistoryAgrees(s.hist) && PendingAgree(s.ops, s.hist) && op in s.ops
    requires op in s.hist.decided ==> event == Refused(s.ops[op].call)
    ensures HistoryAgrees(Finish(s, op, s.ops[op].invokedAt, event).hist)
  {
    assert PendingAgrees(op, s.ops[op], s.hist);
    LogOnceKeepsHistory(s.hist, op, event, s.ops[op].invokedAt);
  }

  lemma FinishKeepsPending<T>(s: State<T>, op: OpId, event: Event<T>)
    requires PendingAgree(s.ops, s.hist) && op in s.ops
    ensures var s' := Finish(s, op, s.ops[op].invokedAt, event); PendingAgree(s'.ops, s'.hist)
  {
    var s' := Finish(s, op, s.ops[op].invokedAt, event);
    assert PendingAgrees(op, s.ops[op], s.hist);
    forall o | o in s'.ops ensures PendingAgrees(o, s'.ops[o], s'.hist) {
      assert PendingAgrees(o, s.ops[o], s.hist);
    }
  }

  lemma FinishKeepsDrops<T>(s: State<T>, op: OpId, event: Event<T>)
    requires DropsAgree(s.table.leases, s.ops, s.hist) && PendingAgree(s.ops, s.hist) && op in s.ops
    ensures var s' := Finish(s, op, s.ops[op].invokedAt, event); DropsAgree(s'.table.leases, s'.ops, s'.hist)
  {
    var s' := Finish(s, op, s.ops[op].invokedAt, event);
    assert PendingAgrees(op, s.ops[op], s.hist);
    DropsKept(s.table.leases, s.ops, s.hist, s'.ops, s'.hist, op);
  }

  lemma FinishKeepsOps<T>(s: State<T>, op: OpId, event: Event<T>)
    requires OpsAgree(s.table, s.ops, s.hist.decided) && op in s.ops
    ensures var s' := Finish(s, op, s.ops[op].invokedAt, event); OpsAgree(s'.table, s'.ops, s'.hist.decided)
  {
    var s' := Finish(s, op, s.ops[op].invokedAt, event);
    forall o | o in s'.ops ensures OpAgrees(s'.table, o, s'.ops[o], s'.hist.decided) {
      assert OpAgrees(s.table, o, s.ops[o], s.hist.decided);
    }
  }

  /** A refused call returns: nothing changes but, for a publisher, that its value is destroyed. */
  lemma RefusedKeepsHomes<T>(s: State<T>, op: OpId)
    requires HomesAgree(s) && PendingAgree(s.ops, s.hist) && op in s.ops
    ensures HomesAgree(Finish(s, op, s.ops[op].invokedAt, Refused(s.ops[op].call)))
  {
    var s' := Finish(s, op, s.ops[op].invokedAt, Refused(s.ops[op].call));
    assert PendingAgrees(op, s.ops[op], s.hist);
    forall token, place | token != op || s.ops[op].call.Take? ensures IsAt(s', token, place) == IsAt(s, token, place) {
    }
    if s.ops[op].call.Publish? {
      assert IsAt(s, op, WithPublisher);
      forall place | IsAt(s', op, place) ensures place == Destroyed {
        assert place != Destroyed ==> IsAt(s, op, place);
      }
    }
  }

  lemma RefusedKeepsInv<T>(s: State<T>, op: OpId)
    requires Inv(s) && op in s.ops
    requires var h := LogOnce(s.hist, op, Refused(s.ops[op].call)); Replays(h.log, s.table.live, s.slots)
    ensures Inv(Finish(s, op, s.ops[op].invokedAt, Refused(s.ops[op].call)))
  {
    var event := Refused(s.ops[op].call);
    FinishKeepsHistory(s, op, event);
    FinishKeepsPending(s, op, event);
    FinishKeepsDrops(s, op, event);
    FinishKeepsOps(s, op, event);
    RefusedKeepsHomes(s, op);
  }

  // Find

  lemma HoldKeepsInv<T>(s: State<T>, op: OpId)
    requires Inv(s) && CanFind(s, op) && s.ops[op].call.key in s.table.entries
    ensures Inv(s.(ops := s.ops[op := s.ops[op].(slot := Some(s.table.entries[s.ops[op].call.key]))]))
  {
    var slot := s.table.entries[s.ops[op].call.key];
    var s' := s.(ops := s.ops[op := s.ops[op].(slot := Some(slot))]);
    assert OpAgrees(s.table, op, s.ops[op], s.hist.decided) && LeaseAgrees(s.table, slot) && PendingAgrees(op, s.ops[op], s.hist);
    forall token, place ensures IsAt(s', token, place) == IsAt(s, token, place) {
    }
    assert DropsAgree(s'.table.leases, s'.ops, s'.hist) by {
      DropsKept(s.table.leases, s.ops, s.hist, s'.ops, s'.hist, op);
    }
  }

  /** An operation that finds no slot is refused on the spot. */
  lemma NothingFoundReplays<T>(s: State<T>, op: OpId)
    requires Inv(s) && CanFind(s, op) && !Upgrades(s, s.ops[op].call.key)
    ensures var h := LogOnce(s.hist, op, Refused(s.ops[op].call)); Replays(h.log, s.table.live, s.slots)
  {
    UpgradesIfLive(s, s.ops[op].call.key);
    assert OpAgrees(s.table, op, s.ops[op], s.hist.decided);
    ReplayExtends(s.hist.log, Entry(op, Refused(s.ops[op].call)));
  }

  lemma FindKeepsInv<T>(s: State<T>, op: OpId)
    requires Inv(s) && CanFind(s, op)
    ensures Inv(Find(s, op))
  {
    if Upgrades(s, s.ops[op].call.key) {
      HoldKeepsInv(s, op);
    } else {
      NothingFoundReplays(s, op);
      RefusedKeepsInv(s, op);
    }
  }

  // The slot step of publish and take

  /** Changing the slot of a live lease changes the cell of its key and no other. */
  lemma CellsChange<T>(t: Table, slots: map<SlotId, Slot<T>>, slot: SlotId, changed: Slot<T>)
    requires TableAgrees(t) && LiveInSlots(t.live, slots) && slot in t.leases
    ensures LiveInSlots(t.live, slots[slot := changed])
    ensures t.leases[slot].key in t.live && t.live[t.leases[slot].key] == slot
    ensures Cells(t.live, slots[slot := changed]) == Cells(t.live, slots)[t.leases[slot].key := CellOf(changed)]
  {
    assert LeaseAgrees(t, slot);
  }

  /** An operation whose slot has died is refused, and leaves the slot as it is. */
  lemma DeadSlotRefuses<T>(s: State<T>, op: OpId)
    requires OpsAgree(s.table, s.ops, s.hist.decided) && SlotsAgree(s.table, s.slots, s.dying) && CanAct(s, op) && op in s.hist.decided
    ensures s.slots[s.ops[op].slot.value] == Slot(false, None)
    ensures Act(s, op) == Finish(s, op, s.ops[op].invokedAt, Refused(s.ops[op].call))
  {
    assert OpAgrees(s.table, op, s.ops[op], s.hist.decided);
    var slot := s.ops[op].slot.value;
    assert slot !in s.table.leases;
    assert s.slots[slot] == Slot(false, None);
    assert s.slots[slot := Slot(false, None)] == s.slots;
  }

  /** What an operation on a live slot answers is what the atomic map answers. */
  lemma ActReplays<T>(s: State<T>, op: OpId, changed: Slot<T>, event: Event<T>)
    requires TableAgrees(s.table) && OpsAgree(s.table, s.ops, s.hist.decided) && SlotsAgree(s.table, s.slots, s.dying)
    requires Replays(s.hist.log, s.table.live, s.slots) && CanAct(s, op) && op !in s.hist.decided
    requires match s.ops[op].call
      case Publish(key, payload) =>
        changed == PublishOn(s.slots[s.ops[op].slot.value], payload).0
        && event == Published(key, payload, PublishOn(s.slots[s.ops[op].slot.value], payload).1)
      case Take(key) =>
        changed == Slot(false, None) && event == Taken(key, s.slots[s.ops[op].slot.value].value)
    ensures Replays(Log(s.hist, op, event).log, s.table.live, s.slots[s.ops[op].slot.value := changed])
  {
    assert OpAgrees(s.table, op, s.ops[op], s.hist.decided);
    var slot := s.ops[op].slot.value;
    assert LeaseAgrees(s.table, slot);
    CellsChange(s.table, s.slots, slot, changed);
    ReplayExtends(s.hist.log, Entry(op, event));
    var key := s.ops[op].call.key;
    var before, after := Cells(s.table.live, s.slots), Cells(s.table.live, s.slots[slot := changed]);
    assert after == before[key := CellOf(changed)];
    assert before[key] == CellOf(s.slots[slot]);
    assert after[key] == before[key] ==> after == before;
    assert Apply(before, event) == Some(after);
  }

  lemma AcceptedPublishKeepsHomes<T>(s: State<T>, op: OpId)
    requires HomesAgree(s) && PendingAgree(s.ops, s.hist) && OpsAgree(s.table, s.ops, s.hist.decided)
    requires CanAct(s, op) && s.ops[op].call.Publish? && PublishOn(s.slots[s.ops[op].slot.value], s.ops[op].call.payload).1
    ensures HomesAgree(Act(s, op))
  {
    var s' := Act(s, op);
    var slot := s.ops[op].slot.value;
    assert PendingAgrees(op, s.ops[op], s.hist) && OpAgrees(s.table, op, s.ops[op], s.hist.decided);
    assert IsAt(s, op, WithPublisher);
    forall token, place | token != op ensures IsAt(s', token, place) == IsAt(s, token, place) {
    }
    forall place | IsAt(s', op, place) ensures place == InSlot(slot) {
      assert place != InSlot(slot) ==> IsAt(s, op, place);
    }
  }

  lemma TakeKeepsHomes<T>(s: State<T>, op: OpId)
    requires HomesAgree(s) && PendingAgree(s.ops, s.hist) && HistoryAgrees(s.hist) && CanAct(s, op) && s.ops[op].call.Take?
    ensures HomesAgree(Act(s, op))
  {
    var s' := Act(s, op);
    var slot := s.ops[op].slot.value;
    var got := s.slots[slot].value;
    assert PendingAgrees(op, s.ops[op], s.hist);
    forall token, place | got.None? || token != got.value.token ensures IsAt(s', token, place) == IsAt(s, token, place) {
    }
    if got.Some? {
      var token := got.value.token;
      assert IsAt(s, token, InSlot(slot));
      forall place | IsAt(s', token, place) ensures place == DeliveredTo(op) {
        assert place != DeliveredTo(op) ==> IsAt(s, token, place);
      }
    }
  }

  lemma TakeKeepsSlots<T>(t: Table, slots: map<SlotId, Slot<T>>, dying: map<SlotId, Option<Payload<T>>>, slot: SlotId, changed: Slot<T>)
    requires SlotsAgree(t, slots, dying) && slot in slots && (slot in t.leases || !changed.active) && (!changed.active ==> changed.value.None?)
    ensures SlotsAgree(t, slots[slot := changed], dying)
  {
  }

  lemma UndecidedActKeepsInv<T>(s: State<T>, op: OpId, changed: Slot<T>, event: Event<T>)
    requires Inv(s) && CanAct(s, op) && op !in s.hist.decided
    requires match s.ops[op].call
      case Publish(key, payload) =>
        changed == PublishOn(s.slots[s.ops[op].slot.value], payload).0
        && event == Published(key, payload, PublishOn(s.slots[s.ops[op].slot.value], payload).1)
      case Take(key) =>
        changed == Slot(false, None) && event == Taken(key, s.slots[s.ops[op].slot.value].value)
    requires HomesAgree(Act(s, op))
    ensures Inv(Act(s, op))
  {
    var s' := Act(s, op);
    var slot := s.ops[op].slot.value;
    var f := Finish(s, op, s.ops[op].invokedAt, event);
    assert s'.hist == f.hist && s'.ops == f.ops && s'.table == s.table && s'.dying == s.dying && s'.slots == s.slots[slot := changed];
    assert OpAgrees(s.table, op, s.ops[op], s.hist.decided);
    FinishKeepsHistory(s, op, event);
    FinishKeepsPending(s, op, event);
    FinishKeepsDrops(s, op, event);
    FinishKeepsOps(s, op, event);
    ActReplays(s, op, changed, event);
    TakeKeepsSlots(s.table, s.slots, s.dying, slot, changed);
  }

  lemma ActKeepsInv<T>(s: State<T>, op: OpId)
    requires Inv(s) && CanAct(s, op)
    ensures Inv(Act(s, op))
  {
    var slot := s.ops[op].slot.value;
    if op in s.hist.decided {
      DeadSlotRefuses(s, op);
      RefusedKeepsInv(s, op);
    } else if s.ops[op].call.Take? {
      TakeKeepsHomes(s, op);
      UndecidedActKeepsInv(s, op, Slot(false, None), Taken(s.ops[op].call.key, s.slots[slot].value));
    } else {
      var payload := s.ops[op].call.payload;
      var (changed, ok) := PublishOn(s.slots[slot], payload);
      if ok {
        AcceptedPublishKeepsHomes(s, op);
      } else {
        assert s.slots[slot := changed] == s.slots;
        assert Act(s, op) == Finish(s, op, s.ops[op].invokedAt, Refused(s.ops[op].call));
        RefusedKeepsHomes(s, op);
      }
      UndecidedActKeepsInv(s, op, changed, Published(s.ops[op].call.key, payload, ok));
    }
  }

  // Drop, up to the slot lock

  lemma UnlinkKeepsTable(t: Table, slot: SlotId, op: OpId, now: nat)
    requires TableAgrees(t) && slot in t.leases && t.leases[slot].phase.Held? && t.leases[slot].key.shard !in t.locks
    ensures TableAgrees(UnlinkLease(t, slot, op, now))
  {
    var t' := UnlinkLease(t, slot, op, now);
    assert LeaseAgrees(t, slot);
    forall l | l in t'.leases ensures LeaseAgrees(t', l) {
      assert LeaseAgrees(t, l);
    }
  }

  lemma UnlinkKeepsOps<T>(t: Table, ops: map<OpId, Op<T>>, decided: map<OpId, nat>, slot: SlotId, op: OpId, now: nat)
    requires OpsAgree(t, ops, decided) && slot in t.leases
    ensures OpsAgree(UnlinkLease(t, slot, op, now), ops, decided)
  {
    forall o | o in ops ensures OpAgrees(UnlinkLease(t, slot, op, now), o, ops[o], decided) {
      assert OpAgrees(t, o, ops[o], decided);
    }
  }

  lemma UnlinkKeepsDrops<T>(leases: map<SlotId, Lease>, ops: map<OpId, Op<T>>, h: History<T>, slot: SlotId, lease: Lease)
    requires DropsAgree(leases, ops, h) && lease.phase.Unlinked? && DropAgrees(lease.phase, ops, h)
    requires forall l :: l in leases && leases[l].phase.Unlinked? ==> leases[l].phase.op != lease.phase.op
    ensures DropsAgree(leases[slot := lease], ops, h)
  {
  }

  lemma UnlinkKeepsInv<T>(s: State<T>, op: OpId, slot: SlotId)
    requires Inv(s) && CanUnlink(s, op, slot)
    ensures Inv(Unlink(s, op, slot))
  {
    var s' := Unlink(s, op, slot);
    UnlinkKeepsTable(s.table, slot, op, |s.hist.log|);
    UnlinkKeepsOps(s.table, s.ops, s.hist.decided, slot, op, |s.hist.log|);
    CallKeepsHistory(s, op, s'.hist);
    UnlinkKeepsDrops(s.table.leases, s.ops, s'.hist, slot, s'.table.leases[slot]);
    UnlinkKeepsHomes(s, op, slot);
  }

  lemma UnlinkKeepsHomes<T>(s: State<T>, op: OpId, slot: SlotId)
    requires HomesAgree(s) && CanUnlink(s, op, slot)
    ensures HomesAgree(Unlink(s, op, slot))
  {
    forall token, place ensures IsAt(Unlink(s, op, slot), token, place) == IsAt(s, token, place) {
    }
  }

  // Drop, under both locks

  /** Deciding a batch of operations: the log grows by their refusals, and they stay pending. */
  lemma {:induction false} RefuseAllKeeps<T>(h: History<T>, ops: map<OpId, Op<T>>, order: seq<OpId>)
    requires HistoryAgrees(h) && PendingAgree(ops, h)
    requires forall i :: 0 <= i < |order| ==> order[i] in ops && order[i] !in h.decided
    requires forall i, j :: 0 <= i < j < |order| ==> order[i] != order[j]
    ensures var h' := RefuseAll(h, ops, order);
      && HistoryAgrees(h') && PendingAgree(ops, h') && h'.done == h.done && h'.used == h.used && |h.log| <= |h'.log|
      && forall op :: op in h'.decided <==> op in h.decided || op in order
  {
    if order != [] {
      var rest, op := order[..|order| - 1], order[|order| - 1];
      RefuseAllKeeps(h, ops, rest);
      RefuseOneKeeps(RefuseAll(h, ops, rest), ops, op);
    }
  }

  lemma RefuseOneKeeps<T>(h: History<T>, ops: map<OpId, Op<T>>, op: OpId)
    requires HistoryAgrees(h) && PendingAgree(ops, h) && op in ops && op !in h.decided
    ensures var h' := Log(h, op, Refused(ops[op].call)); HistoryAgrees(h') && PendingAgree(ops, h')
  {
    var h' := Log(h, op, Refused(ops[op].call));
    assert PendingAgrees(op, ops[op], h);
    LogKeepsHistory(h, op, Refused(ops[op].call));
    forall o | o in ops ensures PendingAgrees(o, ops[o], h') {
      assert PendingAgrees(o, ops[o], h);
    }
  }

  /** With no cell for the key, refusals of operations on it are what the atomic map answers. */
  lemma RefuseAllReplays<T>(h: History<T>, ops: map<OpId, Op<T>>, order: seq<OpId>, key: Key, cells: map<Key, Cell<T>>)
    requires forall i :: 0 <= i < |order| ==> order[i] in ops && ops[order[i]].call.key == key
    requires Replay(h.log) == Some(cells) && key !in cells
    ensures Replay(RefuseAll(h, ops, order).log) == Some(cells)
  {
    if order != [] {
      var rest, op := order[..|order| - 1], order[|order| - 1];
      RefuseAllReplays(h, ops, rest, key, cells);
      ReplayExtends(RefuseAll(h, ops, rest).log, Entry(op, Refused(ops[op].call)));
    }
  }

  lemma RemoveKeepsTable(t: Table, slot: SlotId)
    requires TableAgrees(t) && slot in t.leases && t.leases[slot].phase.Unlinked?
    ensures TableAgrees(RemoveLease(t, slot))
  {
    var t' := RemoveLease(t, slot);
    assert LeaseAgrees(t, slot);
    forall l | l in t'.leases ensures LeaseAgrees(t', l) {
      assert LeaseAgrees(t, l);
    }
  }

  lemma KillKeepsSlots<T>(t: Table, slots: map<SlotId, Slot<T>>, dying: map<SlotId, Option<Payload<T>>>, slot: SlotId)
    requires TableAgrees(t) && SlotsAgree(t, slots, dying) && slot in t.leases && slot in slots
    ensures SlotsAgree(RemoveLease(t, slot), slots[slot := Slot(false, None)], dying[slot := slots[slot].value])
  {
    assert LeaseAgrees(t, slot);
  }

  lemma KillKeepsOps<T>(t: Table, ops: map<OpId, Op<T>>, decided: map<OpId, nat>, slot: SlotId, decided': map<OpId, nat>)
    requires OpsAgree(t, ops, decided) && slot in t.leases
    requires forall o :: o in ops ==> (o in decided' <==> o in decided || ops[o].slot == Some(slot))
    ensures OpsAgree(RemoveLease(t, slot), ops, decided')
  {
    forall o | o in ops ensures OpAgrees(RemoveLease(t, slot), o, ops[o], decided') {
      assert OpAgrees(t, o, ops[o], decided);
    }
  }

  /** The history once the drop itself is recorded. */
  lemma DropKeepsHistory<T>(s: State<T>, slot: SlotId, h: History<T>)
    requires HistoryAgrees(s.hist) && PendingAgree(s.ops, s.hist) && DropsAgree(s.table.leases, s.ops, s.hist)
    requires slot in s.table.leases && s.table.leases[slot].phase.Unlinked?
    requires var Lease(key, Unlinked(op, invokedAt)) := s.table.leases[slot];
      h == Complete(Log(s.hist, op, Dropped(key)), op, Dropped(key), invokedAt)
    ensures HistoryAgrees(h) && PendingAgree(s.ops, h) && h.used == s.hist.used
  {
    var Lease(key, Unlinked(op, invokedAt)) := s.table.leases[slot];
    assert DropAgrees(s.table.leases[slot].phase, s.ops, s.hist);
    LogKeepsHistory(s.hist, op, Dropped(key));
    CompleteKeepsHistory(Log(s.hist, op, Dropped(key)), op, Dropped(key), invokedAt);
    assert h.used == s.hist.used;
    forall o | o in s.ops ensures PendingAgrees(o, s.ops[o], h) {
      assert PendingAgrees(o, s.ops[o], s.hist);
    }
  }

  /** The history after a drop: the drop is recorded and every holder of the slot is decided. */
  lemma KillKeepsHistory<T>(s: State<T>, slot: SlotId, order: seq<OpId>)
    requires HistoryAgrees(s.hist) && PendingAgree(s.ops, s.hist) && DropsAgree(s.table.leases, s.ops, s.hist)
    requires OpsAgree(s.table, s.ops, s.hist.decided) && CanKill(s, slot, order)
    ensures var h := Kill(s, slot, order).hist; var op := s.table.leases[slot].phase.op;
      && HistoryAgrees(h) && PendingAgree(s.ops, h)
      && h.used == s.hist.used && h.done.Keys == s.hist.done.Keys + {op} && |s.hist.log| <= |h.log|
      && forall o :: o in h.decided <==> o in s.hist.decided || o == op || o in order
  {
    var Lease(key, Unlinked(op, invokedAt)) := s.table.leases[slot];
    assert DropAgrees(s.table.leases[slot].phase, s.ops, s.hist);
    var h := Complete(Log(s.hist, op, Dropped(key)), op, Dropped(key), invokedAt);
    DropKeepsHistory(s, slot, h);
    forall i | 0 <= i < |order| ensures order[i] !in h.decided {
      assert OpAgrees(s.table, order[i], s.ops[order[i]], s.hist.decided);
    }
    RefuseAllKeeps(h, s.ops, order);
  }

  lemma KillKeepsDrops<T>(s: State<T>, slot: SlotId, h: History<T>)
    requires DropsAgree(s.table.leases, s.ops, s.hist) && slot in s.table.leases && s.table.leases[slot].phase.Unlinked?
    requires h.used == s.hist.used && h.done.Keys == s.hist.done.Keys + {s.table.leases[slot].phase.op} && |s.hist.log| <= |h.log|
    requires forall o :: o in h.decided ==> o in s.hist.decided || o == s.table.leases[slot].phase.op || o in s.ops
    ensures DropsAgree(s.table.leases - {slot}, s.ops, h)
  {
    forall l | l in s.table.leases - {slot} && s.table.leases[l].phase.Unlinked? ensures DropAgrees(s.table.leases[l].phase, s.ops, h) {
      assert DropAgrees(s.table.leases[l].phase, s.ops, s.hist);
    }
  }

  lemma KillReplays<T>(s: State<T>, slot: SlotId, order: seq<OpId>)
    requires TableAgrees(s.table) && OpsAgree(s.table, s.ops, s.hist.decided)
    requires Replays(s.hist.log, s.table.live, s.slots) && CanKill(s, slot, order)
    ensures var s' := Kill(s, slot, order); Replays(s'.hist.log, s'.table.live, s'.slots)
  {
    var Lease(key, Unlinked(op, invokedAt)) := s.table.leases[slot];
    assert LeaseAgrees(s.table, slot);
    var s' := Kill(s, slot, order);
    var h := Complete(Log(s.hist, op, Dropped(key)), op, Dropped(key), invokedAt);
    var cells := Cells(s.table.live, s.slots);
    ReplayExtends(s.hist.log, Entry(op, Dropped(key)));
    forall o | o in Holders(s, slot) ensures s.ops[o].call.key == key {
      assert OpAgrees(s.table, o, s.ops[o], s.hist.decided);
    }
    RefuseAllReplays(h, s.ops, order, key, cells - {key});
    assert Cells(s'.table.live, s'.slots) == cells - {key};
  }

  lemma KillKeepsHomes<T>(s: State<T>, slot: SlotId, order: seq<OpId>)
    requires HomesAgree(s) && SlotsAgree(s.table, s.slots, s.dying) && CanKill(s, slot, order)
    requires var op := s.table.leases[slot].phase.op; op !in s.hist.done
    requires Kill(s, slot, order).hist.used == s.hist.used
    requires var h := Kill(s, slot, order).hist;
      h.done == s.hist.done[s.table.leases[slot].phase.op := Done(Dropped(s.table.leases[slot].key), s.table.leases[slot].phase.invokedAt, |s.hist.log| + 1)]
    ensures HomesAgree(Kill(s, slot, order))
  {
    var s' := Kill(s, slot, order);
    var value := s.slots[slot].value;
    assert slot !in s.dying;
    forall token, place | value.None? || token != value.value.token ensures IsAt(s', token, place) == IsAt(s, token, place) {
      KillLeavesOthers(s, slot, order, token, place);
    }
    if value.Some? {
      var token := value.value.token;
      assert IsAt(s, token, InSlot(slot));
      forall place | IsAt(s', token, place) ensures place == WithDroppedLease(slot) {
        assert place != WithDroppedLease(slot) ==> IsAt(s, token, place);
      }
    }
  }

  lemma KillLeavesOthers<T>(s: State<T>, slot: SlotId, order: seq<OpId>, token: OpId, place: Place)
    requires CanKill(s, slot, order) && slot !in s.dying
    requires s.slots[slot].value.None? || token != s.slots[slot].value.value.token
    requires var op := s.table.leases[slot].phase.op; op !in s.hist.done
    requires Kill(s, slot, order).hist.used == s.hist.used
    requires var h := Kill(s, slot, order).hist;
      h.done == s.hist.done[s.table.leases[slot].phase.op := Done(Dropped(s.table.leases[slot].key), s.table.leases[slot].phase.invokedAt, |s.hist.log| + 1)]
    ensures IsAt(Kill(s, slot, order), token, place) == IsAt(s, token, place)
  {
  }

  lemma RefuseAllKeepsDone<T>(h: History<T>, ops: map<OpId, Op<T>>, order: seq<OpId>)
    requires forall i :: 0 <= i < |order| ==> order[i] in ops
    ensures RefuseAll(h, ops, order).done == h.done
  {
  }

  lemma KillKeepsInv<T>(s: State<T>, slot: SlotId, order: seq<OpId>)
    requires Inv(s) && CanKill(s, slot, order)
    ensures Inv(Kill(s, slot, order))
  {
    var s' := Kill(s, slot, order);
    var Lease(key, Unlinked(op, invokedAt)) := s.table.leases[slot];
    assert DropAgrees(s.table.leases[slot].phase, s.ops, s.hist);
    KillKeepsHistory(s, slot, order);
    assert forall o :: o in order <==> o in Holders(s, slot);
    RefuseAllKeepsDone(Complete(Log(s.hist, op, Dropped(key)), op, Dropped(key), invokedAt), s.ops, order);
    KillKeepsHomes(s, slot, order);
    KillReplays(s, slot, order);
    KillKeepsDrops(s, slot, s'.hist);
    KillKeepsOps(s.table, s.ops, s.hist.decided, slot, s'.hist.decided);
    KillKeepsSlots(s.table, s.slots, s.dying, slot);
    RemoveKeepsTable(s.table, slot);
  }

  // The end of drop

  lemma DestroyKeepsInv<T>(s: State<T>, slot: SlotId)
    requires Inv(s) && slot in s.dying
    ensures Inv(Destroy(s, slot))
  {
    var s' := Destroy(s, slot);
    var value := s.dying[slot];
    forall token, place | value.None? || token != value.value.token ensures IsAt(s', token, place) == IsAt(s, token, place) {
    }
    if value.Some? {
      var token := value.value.token;
      assert IsAt(s, token, WithDroppedLease(slot));
      forall place | IsAt(s', token, place) ensures place == Destroyed {
        assert place != Destroyed ==> IsAt(s, token, place);
      }
    }
  }

  lemma NextKeepsInv<T>(s: State<T>, step: Step<T>)
    requires Inv(s) && Enabled(s, step)
    ensures Inv(Next(s, step))
  {
    match step
    case RegisterStep(op, key, slot) => RegisterKeepsInv(s, op, key, slot);
    case InvokeStep(op, call) => InvokeKeepsInv(s, op, call);
    case FindStep(op) => FindKeepsInv(s, op);
    case ActStep(op) => ActKeepsInv(s, op);
    case UnlinkStep(op, slot) => UnlinkKeepsInv(s, op, slot);
    case KillStep(slot, order) => KillKeepsInv(s, slot, order);
    case DestroyStep(slot) => DestroyKeepsInv(s, slot);
  }
}
