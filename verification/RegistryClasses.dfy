/**
 * The registry as the objects that threads share: 32 locked maps of weak references, reference-counted
 * slots and the leases that own them. Every method is one or two critical sections; run on its own, each
 * does what the atomic map does.
 */
module ResponseRegistry {
  import opened Wrappers
  import opened ResponseProtocol
  import opened ResponseInvariant

  const SHARDS: nat := 32

  /** The low five bits of owner * 0x9e37_79b9 xor session, which the 64-bit wrap-around does not change. */
  function ShardOf(owner: nat, session: int): (shard: nat)
    ensures shard < SHARDS
  {
    ((owner * 0x9e37_79b9 % 32) as bv5 ^ (session % 32) as bv5) as nat
  }

  function KeyOf(owner: nat, session: int): (key: Key)
    ensures key.shard < SHARDS && key.owner == owner && key.session == session
  {
    Key(owner, session, ShardOf(owner, session))
  }

  class SharedSlot<T> {
    var active: bool
    var value: Option<Payload<T>>
    var owners: nat  // strong references

    constructor ()
      ensures View() == Slot(true, None) && owners == 1
    {
      active, value, owners := true, None, 1;
    }

    ghost function View(): Slot<T>
      reads this
    {
      Slot(active, value)
    }

    /** A slot that some lease owns. */
    ghost predicate Valid()
      reads this
    {
      owners > 0 && (!active ==> value.None?)
    }

    /** The second half of publish. */
    method Publish(payload: Payload<T>) returns (ok: bool)
      modifies this`value
      ensures (View(), ok) == PublishOn(old(View()), payload)
    {
      if !active || value.Some? {
        return false;
      }
      value := Some(payload);
      return true;
    }

    /** The second half of take, and of dropping a lease. */
    method Take() returns (got: Option<Payload<T>>)
      modifies this`active, this`value
      ensures (View(), got) == TakeFrom(old(View()))
    {
      active := false;
      got := value;
      value := None;
    }
  }

  class Registry<T> {
    var shards: seq<map<Key, SharedSlot<T>>>
    ghost var entries: map<Key, SharedSlot<T>>  // all shards together

    ghost predicate Indexed()
      reads this
    {
      && |shards| == SHARDS
      && (forall i, key :: 0 <= i < SHARDS && key in shards[i] ==> key.shard == i && key in entries && entries[key] == shards[i][key])
      && (forall key :: key in entries ==> key.shard < SHARDS && key in shards[key.shard])
      && (forall a, b :: a in entries && b in entries && a != b ==> entries[a] != entries[b])
    }

    ghost predicate Valid()
      reads this, entries.Values
    {
      Indexed() && forall key :: key in entries ==> entries[key].Valid()
    }

    /** The atomic map: what the reachable slots hold. */
    ghost function View(): map<Key, Cell<T>>
      reads this, entries.Values
    {
      map key | key in entries :: CellOf(entries[key].View())
    }

    constructor ()
      ensures Valid() && View() == map[]
    {
      shards := seq(SHARDS, _ => map[]);
      entries := map[];
    }

    /** Weak::upgrade of the entry of a key, without the new reference. */
    predicate Upgrades(key: Key)
      reads this, entries.Values
      requires Valid() && key.shard < SHARDS
      ensures Upgrades(key) <==> key in entries
    {
      key in shards[key.shard] && shards[key.shard][key].owners > 0
    }

    method Insert(key: Key, slot: SharedSlot<T>)
      requires Indexed() && key.shard < SHARDS && key !in entries && slot !in entries.Values
      modifies this
      ensures Indexed() && entries == old(entries)[key := slot]
    {
      shards := shards[key.shard := shards[key.shard][key := slot]];
      entries := entries[key := slot];
    }

    /** Makes a slot for a free key. */
    method Claim(key: Key) returns (slot: SharedSlot<T>)
      requires Valid() && key.shard < SHARDS && key !in entries
      modifies this
      ensures Valid() && fresh(slot) && slot.owners == 1 && entries == old(entries)[key := slot]
      ensures View() == old(View())[key := Waiting]
    {
      slot := new SharedSlot<T>();
      Insert(key, slot);
      MapExtended(old(View()), View(), key, Waiting);
    }

    method Register(key: Key) returns (lease: Option<Lease<T>>)
      requires Valid() && key.shard < SHARDS
      modifies this
      ensures Valid() && Apply(old(View()), Registered(key, lease.Some?)) == Some(View())
      ensures lease.None? ==> entries == old(entries)
      ensures lease.Some? ==> lease.value.registry == this && lease.value.key == key && lease.value.slot.owners == 1
      ensures lease.Some? ==> fresh(lease.value.slot) && entries == old(entries)[key := lease.value.slot]
    {
      if Upgrades(key) {
        return None;
      }
      var slot := Claim(key);
      var owned := new Lease<T>(this, key, slot);
      lease := Some(owned);
    }

    /** Registers what a caller knows: its owner and session, which name the shard. */
    method RegisterSession(owner: nat, session: int) returns (lease: Option<Lease<T>>)
      requires Valid()
      modifies this
      ensures Valid() && Apply(old(View()), Registered(KeyOf(owner, session), lease.Some?)) == Some(View())
      ensures lease.Some? ==> lease.value.registry == this && lease.value.key == KeyOf(owner, session)
    {
      lease := Register(KeyOf(owner, session));
    }

    /** Looks a slot up and takes a reference to it. */
    method Find(key: Key) returns (slot: Option<SharedSlot<T>>)
      requires Valid() && key.shard < SHARDS
      modifies entries.Values`owners
      ensures Valid() && View() == old(View())
      ensures slot == if key in entries then Some(entries[key]) else None
      ensures forall k :: k in entries ==> entries[k].owners == old(entries[k].owners) + if k == key then 1 else 0
    {
      if !Upgrades(key) {
        return None;
      }
      var found := shards[key.shard][key];
      found.owners := found.owners + 1;
      return Some(found);
    }

    /** The slot step and the end of an operation: the reference is given up. */
    method PublishTo(ghost key: Key, slot: SharedSlot<T>, payload: Payload<T>) returns (ok: bool)
      requires Valid() && key in entries && entries[key] == slot && slot.owners > 1
      modifies slot
      ensures Valid() && slot.owners == old(slot.owners) - 1
      ensures Apply(old(View()), Published(key, payload, ok)) == Some(View())
    {
      ok := slot.Publish(payload);
      slot.owners := slot.owners - 1;
      assert View() == old(View())[key := CellOf(slot.View())];
      PublishedCell(old(slot.View()), payload, old(View()), key);
    }

    method TakeFromSlot(ghost key: Key, slot: SharedSlot<T>) returns (got: Option<Payload<T>>)
      requires Valid() && key in entries && entries[key] == slot && slot.owners > 1
      modifies slot
      ensures Valid() && slot.owners == old(slot.owners) - 1
      ensures Apply(old(View()), Taken(key, got)) == Some(View())
    {
      got := slot.Take();
      slot.owners := slot.owners - 1;
      assert View() == old(View())[key := CellOf(slot.View())];
      TakenCell(old(slot.View()), old(View()), key);
    }

    method Publish(key: Key, payload: Payload<T>) returns (ok: bool)
      requires Valid() && key.shard < SHARDS
      modifies entries.Values
      ensures Valid() && Apply(old(View()), Published(key, payload, ok)) == Some(View())
    {
      var found := Find(key);
      if found.None? {
        return false;
      }
      ok := PublishTo(key, found.value, payload);
    }

    method Take(key: Key) returns (got: Option<Payload<T>>)
      requires Valid() && key.shard < SHARDS
      modifies entries.Values
      ensures Valid() && Apply(old(View()), Taken(key, got)) == Some(View())
    {
      var found := Find(key);
      if found.None? {
        return None;
      }
      got := TakeFromSlot(key, found.value);
    }

    method CountShard(i: nat) returns (waiting: nat, ready: nat)
      requires Valid() && i < SHARDS
      ensures waiting == |Among(View(), shards[i].Keys, false)| && ready == |Among(View(), shards[i].Keys, true)|
    {
      waiting, ready := 0, 0;
      var rest := shards[i].Keys;
      ghost var seen: set<Key> := {};
      while rest != {}
        invariant rest !! seen && rest + seen == shards[i].Keys
        invariant waiting == |Among(View(), seen, false)| && ready == |Among(View(), seen, true)|
      {
        var key :| key in rest;
        var slot := shards[i][key];
        AmongOneMore(View(), seen, key, false);
        AmongOneMore(View(), seen, key, true);
        if slot.active {
          if slot.value.Some? {
            ready := ready + 1;
          } else {
            waiting := waiting + 1;
          }
        }
        rest, seen := rest - {key}, seen + {key};
      }
      assert seen == shards[i].Keys;
    }

    /** How many keys wait for a value and how many have one ready. */
    method Counts() returns (waiting: nat, ready: nat)
      requires Valid()
      ensures waiting == |Among(View(), View().Keys, false)| && ready == |Among(View(), View().Keys, true)|
    {
      waiting, ready := 0, 0;
      for i := 0 to SHARDS
        invariant waiting == ShardSum(i, false) && ready == ShardSum(i, true)
      {
        var w, r := CountShard(i);
        waiting, ready := waiting + w, ready + r;
      }
      AllShards(false);
      AllShards(true);
    }

    /** How many keys wait, or are ready, shard by shard. */
    ghost function ShardSum(i: nat, ready: bool): nat
      requires Valid() && i <= SHARDS
      reads this, entries.Values
    {
      if i == 0 then 0 else ShardSum(i - 1, ready) + |Among(View(), shards[i - 1].Keys, ready)|
    }

    lemma {:induction false} ShardsTogether(i: nat, ready: bool)
      requires Valid() && i <= SHARDS
      ensures ShardSum(i, ready) == |Among(View(), KeysBelow(i), ready)|
    {
      if i == 0 {
        OneMoreShard(0);
        assert Among(View(), {}, ready) == {};
      } else {
        ShardsTogether(i - 1, ready);
        OneMoreShard(i - 1);
        AmongDisjoint(View(), KeysBelow(i - 1), shards[i - 1].Keys, ready);
      }
    }

    lemma AllShards(ready: bool)
      requires Valid()
      ensures ShardSum(SHARDS, ready) == |Among(View(), View().Keys, ready)|
    {
      ShardsTogether(SHARDS, ready);
      OneMoreShard(SHARDS);
    }

    lemma OneMoreShard(i: nat)
      requires Indexed() && i <= SHARDS
      ensures i < SHARDS ==> KeysBelow(i + 1) == KeysBelow(i) + shards[i].Keys && KeysBelow(i) !! shards[i].Keys
      ensures KeysBelow(0) == {} && KeysBelow(SHARDS) == View().Keys
    {
    }

    /** Removes an entry that still refers to the slot: Weak::ptr_eq. */
    method Remove(key: Key, slot: SharedSlot<T>)
      requires Indexed() && key in entries && entries[key] == slot
      modifies this
      ensures Indexed() && entries == old(entries) - {key}
    {
      if key in shards[key.shard] && shards[key.shard][key] == slot {
        shards := shards[key.shard := shards[key.shard] - {key}];
        entries := entries - {key};
      }
    }

    ghost function KeysBelow(i: nat): set<Key>
      reads this
    {
      set key | key in entries && key.shard < i
    }
  }

  /** The slot steps are the steps of the atomic map on the cell of the slot. */
  lemma PublishedCell<T>(slot: Slot<T>, payload: Payload<T>, cells: map<Key, Cell<T>>, key: Key)
    requires key in cells && cells[key] == CellOf(slot) && (!slot.active ==> slot.value.None?)
    ensures var (changed, ok) := PublishOn(slot, payload);
      Apply(cells, Published(key, payload, ok)) == Some(cells[key := CellOf(changed)])
  {
    if !PublishOn(slot, payload).1 {
      assert cells[key := cells[key]] == cells;
    }
  }

  lemma TakenCell<T>(slot: Slot<T>, cells: map<Key, Cell<T>>, key: Key)
    requires key in cells && cells[key] == CellOf(slot) && (!slot.active ==> slot.value.None?)
    ensures var (changed, got) := TakeFrom(slot);
      Apply(cells, Taken(key, got)) == Some(cells[key := CellOf(changed)])
  {
  }

  /** The keys of a set whose cell is ready, or waiting. */
  ghost function Among<T>(cells: map<Key, Cell<T>>, keys: set<Key>, ready: bool): set<Key> {
    set key | key in keys && key in cells && (if ready then cells[key].Ready? else cells[key].Waiting?)
  }

  lemma AmongDisjoint<T>(cells: map<Key, Cell<T>>, a: set<Key>, b: set<Key>, ready: bool)
    requires a !! b
    ensures |Among(cells, a + b, ready)| == |Among(cells, a, ready)| + |Among(cells, b, ready)|
  {
    assert Among(cells, a + b, ready) == Among(cells, a, ready) + Among(cells, b, ready);
  }

  lemma AmongOneMore<T>(cells: map<Key, Cell<T>>, seen: set<Key>, key: Key, ready: bool)
    requires key in cells && key !in seen
    ensures |Among(cells, seen + {key}, ready)| == |Among(cells, seen, ready)| + if (if ready then cells[key].Ready? else cells[key].Waiting?) then 1 else 0
  {
    AmongDisjoint(cells, seen, {key}, ready);
    assert Among(cells, {key}, ready) == if (if ready then cells[key].Ready? else cells[key].Waiting?) then {key} else {};
  }

  lemma MapExtended<K, V>(before: map<K, V>, after: map<K, V>, key: K, value: V)
    requires after.Keys == before.Keys + {key} && after[key] == value
    requires forall k :: k in before && k != key ==> after[k] == before[k]
    ensures after == before[key := value]
    ensures key in before && before[key] == value ==> after == before
  {
  }

  lemma MapShrunk<K, V>(before: map<K, V>, after: map<K, V>, key: K)
    requires after.Keys == before.Keys - {key} && forall k :: k in after ==> after[k] == before[k]
    ensures after == before - {key}
  {
  }

  class Lease<T> {
    const registry: Registry<T>
    const key: Key
    const slot: SharedSlot<T>

    constructor (registry: Registry<T>, key: Key, slot: SharedSlot<T>)
      ensures this.registry == registry && this.key == key && this.slot == slot
    {
      this.registry, this.key, this.slot := registry, key, slot;
    }

    /** Dropping the lease frees the key and hands back what nobody took. */
    method Drop() returns (value: Option<Payload<T>>)
      requires registry.Valid() && key in registry.entries && registry.entries[key] == slot
      modifies registry, slot
      ensures registry.Valid() && registry.entries == old(registry.entries) - {key}
      ensures Apply(old(registry.View()), Dropped(key)) == Some(registry.View())
      ensures slot.View() == Slot(false, None) && value == old(slot.value)
    {
      registry.Remove(key, slot);
      value := slot.Take();
      slot.owners := slot.owners - 1;
      MapShrunk(old(registry.View()), registry.View(), key);
    }
  }
}
