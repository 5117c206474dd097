/**
 * The SQLx response registry: slots found through weak references under a shard lock and changed
 * under their own lock, by publishers, takers and dropping leases that interleave freely.
 *
 * A step of the system below is one critical section. The fields named as history record what has
 * happened; no step's enabling or effect on the other fields depends on them.
 */
module ResponseProtocol {
  import opened Wrappers

  type SlotId = int
  type OpId = int

  /** The shard is the lock that guards the key's entry. Nothing here depends on how keys are given shards. */
  datatype Key = Key(owner: nat, session: int, shard: nat)

  /** A published value, with the operation that published it as its identity. */
  datatype Payload<T> = Payload(token: OpId, content: T)

  datatype Slot<T> = Slot(active: bool, value: Option<Payload<T>>)

  // The critical sections under a slot lock. A dropping lease does to its slot what take does.

  function PublishOn<T>(slot: Slot<T>, payload: Payload<T>): (Slot<T>, bool) {
    if !slot.active || slot.value.Some? then (slot, false) else (slot.(value := Some(payload)), true)
  }

  function TakeFrom<T>(slot: Slot<T>): (Slot<T>, Option<Payload<T>>) {
    (Slot(false, None), slot.value)
  }

  // The atomic specification: a key is absent, waiting, ready or consumed.

  datatype Cell<T> = Waiting | Ready(payload: Payload<T>) | Consumed

  datatype Event<T> =
    | Registered(key: Key, ok: bool)
    | Published(key: Key, payload: Payload<T>, ok: bool)
    | Taken(key: Key, got: Option<Payload<T>>)
    | Dropped(key: Key)

  /** The atomic map after an event, or None when the atomic map would not have answered so. */
  ghost function Apply<T>(cells: map<Key, Cell<T>>, event: Event<T>): Option<map<Key, Cell<T>>> {
    match event
    case Registered(key, ok) =>
      if ok != (key !in cells) then None else Some(if ok then cells[key := Waiting] else cells)
    case Published(key, payload, ok) =>
      if ok != (key in cells && cells[key].Waiting?) then None else Some(if ok then cells[key := Ready(payload)] else cells)
    case Taken(key, got) =>
      if got != (if key in cells && cells[key].Ready? then Some(cells[key].payload) else None) then None
      else Some(if key in cells then cells[key := Consumed] else cells)
    case Dropped(key) =>
      if key !in cells then None else Some(cells - {key})
  }

  datatype Entry<T> = Entry(op: OpId, event: Event<T>)

  /** Runs a log through the atomic map, from empty. */
  ghost function Replay<T>(log: seq<Entry<T>>): Option<map<Key, Cell<T>>> {
    if log == [] then Some(map[])
    else
      var before := Replay(log[..|log| - 1]);
      if before.None? then None else Apply(before.value, log[|log| - 1].event)
  }

  // The concurrent system.

  datatype Call<T> = Publish(key: Key, payload: Payload<T>) | Take(key: Key)

  /** A publish or take in progress: before its lookup, or holding the slot that the lookup found. */
  datatype Op<T> = Op(call: Call<T>, slot: Option<SlotId>, invokedAt: nat)

  datatype Phase = Held | Unlinked(op: OpId, invokedAt: nat)

  datatype Lease = Lease(key: Key, phase: Phase)

  /** A completed operation: its result, and how long the log was when it was called and when it returned. */
  datatype Done<T> = Done(event: Event<T>, invokedAt: nat, returnedAt: nat)

  /** Where a published value is. */
  datatype Place = WithPublisher | InSlot(slot: SlotId) | WithDroppedLease(slot: SlotId) | DeliveredTo(op: OpId) | Destroyed

  /** Shards, their locks and the leases. The entries of all shards are one map: a key can only be in its own shard. */
  datatype Table = Table(
    entries: map<Key, SlotId>,    // weak references
    locks: map<nat, SlotId>,      // the dropping leases that hold a shard's lock between two of their steps
    leases: map<SlotId, Lease>,   // live leases by the slot they own
    live: map<Key, SlotId>,       // history: leases by key
    slotKey: map<SlotId, Key>     // history: the key a slot was made for
  )

  datatype History<T> = History(
    log: seq<Entry<T>>,           // operations in the order in which they take effect
    decided: map<OpId, nat>,      // where an operation is in the log
    used: set<OpId>,              // every operation called so far
    done: map<OpId, Done<T>>      // every operation that has returned
  )

  datatype State<T> = State(
    table: Table,
    slots: map<SlotId, Slot<T>>,
    dying: map<SlotId, Option<Payload<T>>>, // what a dropped lease still has to destroy, outside all locks
    ops: map<OpId, Op<T>>,
    hist: History<T>,                       // history
    destroyed: set<OpId>,                   // history: tokens of values that no longer exist
    home: map<OpId, Place>                  // history: where the value published by an operation is
  )

  ghost predicate Init<T>(s: State<T>) {
    s == State(Table(map[], map[], map[], map[], map[]), map[], map[], map[], History([], map[], {}, map[]), {}, map[])
  }

  /** Weak::upgrade succeeds while the lease or some operation still owns the slot. */
  ghost predicate Strong<T>(s: State<T>, slot: SlotId) {
    slot in s.table.leases || exists op :: op in s.ops && s.ops[op].slot == Some(slot)
  }

  ghost predicate Upgrades<T>(s: State<T>, key: Key) {
    key in s.table.entries && Strong(s, s.table.entries[key])
  }

  ghost function Log<T>(h: History<T>, op: OpId, event: Event<T>): History<T> {
    h.(log := h.log + [Entry(op, event)], decided := h.decided[op := |h.log|])
  }

  ghost function LogOnce<T>(h: History<T>, op: OpId, event: Event<T>): History<T> {
    if op in h.decided then h else Log(h, op, event)
  }

  ghost function Complete<T>(h: History<T>, op: OpId, event: Event<T>, invokedAt: nat): History<T> {
    h.(used := h.used + {op}, done := h.done[op := Done(event, invokedAt, |h.log|)])
  }

  // Registry::register, one critical section under the shard lock.

  ghost predicate CanRegister<T>(s: State<T>, op: OpId, key: Key, slot: SlotId) {
    op !in s.hist.used && key.shard !in s.table.locks && slot !in s.slots
  }

  ghost function Register<T>(s: State<T>, op: OpId, key: Key, slot: SlotId): State<T> {
    if Upgrades(s, key) then InUse(s, op, key) else Accept(s, op, key, slot)
  }

  ghost function InUse<T>(s: State<T>, op: OpId, key: Key): State<T> {
    s.(hist := Answered(s.hist, op, Registered(key, false)))
  }

  ghost function Accept<T>(s: State<T>, op: OpId, key: Key, slot: SlotId): State<T> {
    s.(table := AddLease(s.table, key, slot), slots := s.slots[slot := Slot(true, None)], hist := Answered(s.hist, op, Registered(key, true)))
  }

  ghost function Answered<T>(h: History<T>, op: OpId, event: Event<T>): History<T> {
    Complete(Log(h, op, event), op, event, |h.log|)
  }

  ghost function AddLease(t: Table, key: Key, slot: SlotId): Table {
    t.(entries := t.entries[key := slot], leases := t.leases[slot := Lease(key, Held)], live := t.live[key := slot], slotKey := t.slotKey[slot := key])
  }

  // A call to publish or take begins.

  ghost predicate CanInvoke<T>(s: State<T>, op: OpId, call: Call<T>) {
    op !in s.hist.used && (call.Publish? ==> call.payload.token == op)
  }

  ghost function Invoke<T>(s: State<T>, op: OpId, call: Call<T>): State<T> {
    s.(ops := s.ops[op := Op(call, None, |s.hist.log|)],
       hist := s.hist.(used := s.hist.used + {op}),
       home := if call.Publish? then s.home[op := WithPublisher] else s.home)
  }

  /** What publish and take answer when there is nothing to publish to or to take. */
  ghost function Refused<T>(call: Call<T>): Event<T> {
    match call
    case Publish(key, payload) => Published(key, payload, false)
    case Take(key) => Taken(key, None)
  }

  /** The call takes effect unless a drop has decided it, and returns; a refused publisher destroys its value. */
  ghost function Finish<T>(s: State<T>, op: OpId, invokedAt: nat, event: Event<T>): State<T> {
    var refused := event.Published? && !event.ok;
    s.(ops := s.ops - {op},
       hist := Complete(LogOnce(s.hist, op, event), op, event, invokedAt),
       destroyed := if refused then s.destroyed + {op} else s.destroyed,
       home := if refused then s.home[op := Destroyed] else s.home)
  }

  // Registry::find, under the shard lock; publish and take return at once when it finds nothing.

  ghost predicate CanFind<T>(s: State<T>, op: OpId) {
    op in s.ops && s.ops[op].slot.None? && s.ops[op].call.key.shard !in s.table.locks
  }

  ghost function Find<T>(s: State<T>, op: OpId): State<T>
    requires CanFind(s, op)
  {
    var o := s.ops[op];
    if Upgrades(s, o.call.key) then s.(ops := s.ops[op := o.(slot := Some(s.table.entries[o.call.key]))])
    else Finish(s, op, o.invokedAt, Refused(o.call))
  }

  // The part of publish and take under the slot lock.

  ghost predicate CanAct<T>(s: State<T>, op: OpId) {
    op in s.ops && s.ops[op].slot.Some? && s.ops[op].slot.value in s.slots
  }

  ghost function Act<T>(s: State<T>, op: OpId): State<T>
    requires CanAct(s, op)
  {
    var o := s.ops[op];
    match o.call
    case Publish(key, payload) =>
      var (changed, ok) := PublishOn(s.slots[o.slot.value], payload);
      Finish(Change(s, o.slot.value, changed, op, if ok then Some(InSlot(o.slot.value)) else None), op, o.invokedAt, Published(key, payload, ok))
    case Take(key) =>
      var (changed, got) := TakeFrom(s.slots[o.slot.value]);
      Finish(Change(s, o.slot.value, changed, if got.Some? then got.value.token else op, if got.Some? then Some(DeliveredTo(op)) else None),
             op, o.invokedAt, Taken(key, got))
  }

  /** Changes a slot and records the new place of the value concerned, if it has moved. */
  ghost function Change<T>(s: State<T>, slot: SlotId, changed: Slot<T>, token: OpId, place: Option<Place>): State<T> {
    s.(slots := s.slots[slot := changed], home := if place.Some? then s.home[token := place.value] else s.home)
  }

  // Lease::drop up to the slot lock: the shard lock is taken and kept, the lease's own entry removed.

  ghost predicate CanUnlink<T>(s: State<T>, op: OpId, slot: SlotId) {
    op !in s.hist.used && slot in s.table.leases && s.table.leases[slot].phase.Held? && s.table.leases[slot].key.shard !in s.table.locks
  }

  ghost function Unlink<T>(s: State<T>, op: OpId, slot: SlotId): State<T>
    requires CanUnlink(s, op, slot)
  {
    s.(table := UnlinkLease(s.table, slot, op, |s.hist.log|), hist := s.hist.(used := s.hist.used + {op}))
  }

  ghost function UnlinkLease(t: Table, slot: SlotId, op: OpId, now: nat): Table
    requires slot in t.leases
  {
    var key := t.leases[slot].key;
    t.(entries := if key in t.entries && t.entries[key] == slot then t.entries - {key} else t.entries,
       locks := t.locks[key.shard := slot],
       leases := t.leases[slot := Lease(key, Unlinked(op, now))])
  }

  // Lease::drop under both locks: the slot dies. Every operation still holding it can only be refused
  // from now on, and takes effect here, in some order, right after the drop.

  ghost predicate CanKill<T>(s: State<T>, slot: SlotId, order: seq<OpId>) {
    slot in s.table.leases && s.table.leases[slot].phase.Unlinked? && slot in s.slots && Enumerates(order, Holders(s, slot))
  }

  ghost function Holders<T>(s: State<T>, slot: SlotId): set<OpId> {
    set op | op in s.ops && s.ops[op].slot == Some(slot)
  }

  ghost predicate Enumerates(order: seq<OpId>, ops: set<OpId>) {
    && (forall i :: 0 <= i < |order| ==> order[i] in ops)
    && (forall op :: op in ops ==> op in order)
    && (forall i, j :: 0 <= i < j < |order| ==> order[i] != order[j])
  }

  ghost function Kill<T>(s: State<T>, slot: SlotId, order: seq<OpId>): State<T>
    requires CanKill(s, slot, order)
  {
    var Lease(key, Unlinked(op, invokedAt)) := s.table.leases[slot];
    var (changed, value) := TakeFrom(s.slots[slot]);
    var h := Complete(Log(s.hist, op, Dropped(key)), op, Dropped(key), invokedAt);
    s.(table := RemoveLease(s.table, slot),
       slots := s.slots[slot := changed],
       dying := s.dying[slot := value],
       hist := RefuseAll(h, s.ops, order),
       home := if value.Some? then s.home[value.value.token := WithDroppedLease(slot)] else s.home)
  }

  ghost function RemoveLease(t: Table, slot: SlotId): Table
    requires slot in t.leases
  {
    var key := t.leases[slot].key;
    t.(locks := t.locks - {key.shard}, leases := t.leases - {slot}, live := t.live - {key})
  }

  /** Decides the operations in the order given: each of them is refused. */
  ghost function RefuseAll<T>(h: History<T>, ops: map<OpId, Op<T>>, order: seq<OpId>): History<T>
    requires forall i :: 0 <= i < |order| ==> order[i] in ops
  {
    if order == [] then h
    else
      var op := order[|order| - 1];
      Log(RefuseAll(h, ops, order[..|order| - 1]), op, Refused(ops[op].call))
  }

  // The end of Lease::drop: the value is destroyed outside all locks.

  ghost function Destroy<T>(s: State<T>, slot: SlotId): State<T>
    requires slot in s.dying
  {
    var value := s.dying[slot];
    s.(dying := s.dying - {slot},
       destroyed := if value.Some? then s.destroyed + {value.value.token} else s.destroyed,
       home := if value.Some? then s.home[value.value.token := Destroyed] else s.home)
  }

  datatype Step<T> =
    | RegisterStep(op: OpId, key: Key, slot: SlotId)
    | InvokeStep(op: OpId, call: Call<T>)
    | FindStep(op: OpId)
    | ActStep(op: OpId)
    | UnlinkStep(op: OpId, slot: SlotId)
    | KillStep(slot: SlotId, order: seq<OpId>)
    | DestroyStep(slot: SlotId)

  ghost predicate Enabled<T>(s: State<T>, step: Step<T>) {
    match step
    case RegisterStep(op, key, slot) => CanRegister(s, op, key, slot)
    case InvokeStep(op, call) => CanInvoke(s, op, call)
    case FindStep(op) => CanFind(s, op)
    case ActStep(op) => CanAct(s, op)
    case UnlinkStep(op, slot) => CanUnlink(s, op, slot)
    case KillStep(slot, order) => CanKill(s, slot, order)
    case DestroyStep(slot) => slot in s.dying
  }

  ghost function Next<T>(s: State<T>, step: Step<T>): State<T>
    requires Enabled(s, step)
  {
    match step
    case RegisterStep(op, key, slot) => Register(s, op, key, slot)
    case InvokeStep(op, call) => Invoke(s, op, call)
    case FindStep(op) => Find(s, op)
    case ActStep(op) => Act(s, op)
    case UnlinkStep(op, slot) => Unlink(s, op, slot)
    case KillStep(slot, order) => Kill(s, slot, order)
    case DestroyStep(slot) => Destroy(s, slot)
  }

  ghost predicate Leads<T>(s: State<T>, step: Step<T>, s': State<T>) {
    Enabled(s, step) && s' == Next(s, step)
  }

  /** A run: states and the steps between them, in any interleaving. */
  ghost predicate Run<T>(states: seq<State<T>>, steps: seq<Step<T>>) {
    && |states| == |steps| + 1
    && Init(states[0])
    && forall i :: 0 <= i < |steps| ==> Leads(states[i], steps[i], states[i + 1])
  }
}
