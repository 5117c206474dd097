/**
 * Rust values owned by the Lua userdata of one type, when any Lua allocation may fail, and any allocation may
 * first collect garbage and so run finalizers: arbitrary Lua code, which may come back here.
 */
module Userdata {
  import opened Wrappers

  type Owned = int // a Rust value handed to Lua

  /** Which fields of a metatable are set. */
  datatype Metatable = Metatable(name: bool, index: bool, gc: bool, close: bool, locked: bool)

  /** A userdata: its Option, the metatable set on it, and whether a call of its finalizer is still due. */
  datatype Block = Block(slot: Option<Owned>, meta: nat, due: bool)

  /** One allocation: what finalizers do first, and whether memory is found then. */
  datatype Turn = Turn(deeds: seq<Deed>, ok: bool)

  /** What Lua code and the collector can do with userdata of this type. */
  datatype Deed =
    | Make(value: Owned, turns: seq<Turn>) // create one, with what happens at its allocations
    | Collect(i: nat)                      // the finalizer that is due is called
    | Close(i: nat)                        // a variable marked for closing goes out of scope
    | Abandon(i: nat)                      // the native code that created it gives it up

  datatype World = World(
    closes: bool,             // whether the type asks for __close
    closing: bool,            // whether the Lua state is being closed
    registry: Option<nat>,    // the metatable under the type's registry key
    metatables: seq<Metatable>,
    blocks: seq<Block>,
    dropped: seq<Owned>,
    given: multiset<Owned>    // history: every value handed over
  )

  const BARE := Metatable(false, false, false, false, false)

  function Init(closes: bool): World {
    World(closes, false, None, [], [], [], multiset{})
  }

  // The specification

  function Inside(b: Block): seq<Owned> {
    if b.slot.Some? then [b.slot.value] else []
  }

  /** Option::take and the drop of what it gave. */
  function Taken(w: World, i: nat): World
    requires i < |w.blocks|
  {
    w.(blocks := w.blocks[i := w.blocks[i].(slot := None)], dropped := w.dropped + Inside(w.blocks[i]))
  }

  /** The check of test_userdata: the block carries the registered metatable. */
  predicate Recognized(w: World, i: nat)
    requires i < |w.blocks|
  {
    Some(w.blocks[i].meta) == w.registry
  }

  function Finalized(w: World, i: nat): World
    requires i < |w.blocks|
  {
    if Recognized(w, i) then Taken(w, i) else w
  }

  /** The collector calls a finalizer once. */
  function Collected(w: World, i: nat): World {
    if i < |w.blocks| && w.blocks[i].due then Finalized(w.(blocks := w.blocks[i := w.blocks[i].(due := false)]), i) else w
  }

  function Closed(w: World, i: nat): World {
    if i < |w.blocks| && w.closes then Finalized(w, i) else w
  }

  function Abandoned(w: World, i: nat): World {
    if i < |w.blocks| then Taken(w, i) else w
  }

  /** Blocks are added, and those there are only emptied and finalized. */
  predicate OnlyEmptied(before: seq<Block>, after: seq<Block>) {
    && |before| <= |after|
    && forall i :: 0 <= i < |before| ==>
      && after[i].meta == before[i].meta
      && (after[i].slot == before[i].slot || after[i].slot.None?)
      && (after[i].due ==> before[i].due)
  }

  /** Where no metatable was registered a new one is. */
  predicate Registers(w: World, r: World) {
    w.registry.None? && r.registry.Some? && r.registry.value >= |w.metatables|
  }

  /** Metatables already there stay, and so does a registered one. */
  predicate Grows(w: World, r: World) {
    && r.closes == w.closes && r.closing == w.closing && w.metatables <= r.metatables
    && (r.registry == w.registry || Registers(w, r))
    && OnlyEmptied(w.blocks, r.blocks)
  }

  function Run(w: World, deeds: seq<Deed>): (r: World)
    ensures Grows(w, r)
    decreases deeds
  {
    if deeds == [] then w else Run(Act(w, deeds[0]), deeds[1..])
  }

  function Act(w: World, d: Deed): (r: World)
    ensures Grows(w, r)
    decreases d
  {
    match d
    case Make(value, turns) => Created(w, value, turns)
    case Collect(i) => Collected(w, i)
    case Close(i) => Closed(w, i)
    case Abandon(i) => Abandoned(w, i)
  }

  function Took(w: World, t: Turn): (r: World)
    ensures Grows(w, r)
    decreases t
  {
    Run(w, t.deeds)
  }

  /** The k-th allocation of a creation. */
  function Allocated(w: World, turns: seq<Turn>, k: nat): (r: (World, bool))
    ensures Grows(w, r.0)
    decreases turns, 0
  {
    if k < |turns| then (Took(w, turns[k]), turns[k].ok) else (w, true)
  }

  /** The metatable as it is after the k-th allocation. */
  function Stage(closes: bool, k: nat): Metatable {
    Metatable(k >= 2, k >= 5, k >= 6, closes && k >= 7, k >= 8)
  }

  /** After allocations 1, 3 and 4, for the text of the name, the method table and the methods, no field is set. */
  function Laid(w: World, id: nat, k: nat): World
    requires id < |w.metatables|
  {
    if k in {1, 3, 4} then w else w.(metatables := w.metatables[id := Stage(w.closes, k)])
  }

  /** The fields of a metatable, set one after another; the last allocation is for the registry. */
  function Built(w: World, id: nat, turns: seq<Turn>, k: nat): (r: (World, bool))
    requires id < |w.metatables| && k <= 9
    ensures r.0.closes == w.closes && r.0.closing == w.closing && OnlyEmptied(w.blocks, r.0.blocks)
    ensures |w.metatables| <= |r.0.metatables| && w.metatables[..id] <= r.0.metatables
    ensures r.0.registry == w.registry || Registers(w, r.0)
    decreases turns, 1, 9 - k
  {
    if k == 7 && !w.closes then Built(w, id, turns, 8)
    else
      var (a, ok) := Allocated(w, turns, k);
      if !ok || k == 9 then (a, ok) else Built(Laid(a, id, k), id, turns, k + 1)
  }

  /** A new metatable is registered once it is whole. */
  function Published(w: World, turns: seq<Turn>): (r: (World, bool))
    requires w.registry.None?
    ensures Grows(w, r.0) && (r.1 ==> r.0.registry.Some?)
    decreases turns, 2
  {
    var (a, found) := Allocated(w, turns, 0);
    if !found then (a, false)
    else
      var (b, ok) := Built(a.(metatables := a.metatables + [BARE]), |a.metatables|, turns, 1);
      (if ok then b.(registry := Some(|a.metatables|)) else b, ok)
  }

  /** The protected part of a creation: the metatable for the new block, unless an allocation fails. */
  function Dispatched(w: World, turns: seq<Turn>): (r: (World, Option<nat>))
    ensures Grows(w, r.0)
    decreases turns, 3
  {
    var (a, ok) := if w.registry.None? then Published(w, turns) else (w, true);
    if !ok then (a, None)
    else
      var (b, room) := Allocated(a, turns, 10);
      (b, if room then a.registry else None)
  }

  /** Setting a metatable makes a finalizer due when __gc is in it by then and the state is not being closed. */
  function NewBlock(w: World, meta: nat, slot: Option<Owned>): Block {
    Block(slot, meta, meta < |w.metatables| && w.metatables[meta].gc && !w.closing)
  }

  /** userdata: the value moves into the new block, or is dropped by the unwind. */
  function Created(w: World, value: Owned, turns: seq<Turn>): (r: World)
    ensures Grows(w, r)
    decreases turns, 4
  {
    var (a, meta) := Dispatched(w, turns);
    if meta.None? then a.(dropped := a.dropped + [value], given := a.given + multiset{value})
    else a.(blocks := a.blocks + [NewBlock(a, meta.value, Some(value))], given := a.given + multiset{value})
  }

  function CollectedFrom(w: World, i: nat): World
    decreases |w.blocks| - i
  {
    if i >= |w.blocks| then w else CollectedFrom(Collected(w, i), i + 1)
  }

  /** Closing the Lua state calls every finalizer that is due, and other finalizers in between. */
  function ShutDown(w: World, deeds: seq<Deed>): World {
    CollectedFrom(Run(w.(closing := true), deeds), 0)
  }

  // What values are held

  function One(b: Block, x: Owned): nat {
    if b.slot == Some(x) then 1 else 0
  }

  /** How often a value is inside userdata. */
  function Held(blocks: seq<Block>, x: Owned): nat {
    if blocks == [] then 0 else One(blocks[0], x) + Held(blocks[1..], x)
  }

  lemma {:induction false} HeldUpdate(blocks: seq<Block>, i: nat, b: Block, x: Owned)
    requires i < |blocks|
    ensures Held(blocks[i := b], x) + One(blocks[i], x) == Held(blocks, x) + One(b, x)
  {
    if i == 0 {
      assert blocks[0 := b][1..] == blocks[1..];
    } else {
      HeldUpdate(blocks[1..], i - 1, b, x);
      assert blocks[i := b][1..] == blocks[1..][i - 1 := b];
    }
  }

  lemma {:induction false} HeldMore(blocks: seq<Block>, b: Block, x: Owned)
    ensures Held(blocks + [b], x) == Held(blocks, x) + One(b, x)
  {
    if blocks == [] {
      assert [] + [b] == [b];
    } else {
      HeldMore(blocks[1..], b, x);
      assert (blocks + [b])[1..] == blocks[1..] + [b];
    }
  }

  lemma {:induction false} HeldBehind(blocks: seq<Block>, n: nat, x: Owned)
    requires n <= |blocks| && forall i :: 0 <= i < n ==> blocks[i].slot.None?
    ensures Held(blocks, x) == Held(blocks[n..], x)
  {
    if n > 0 {
      HeldBehind(blocks[1..], n - 1, x);
      assert blocks[1..][n - 1..] == blocks[n..];
    } else {
      assert blocks[0..] == blocks;
    }
  }

  // What always holds

  predicate Complete(m: Metatable, closes: bool) {
    m.name && m.index && m.gc && m.locked && m.close == closes
  }

  /** The registry slot is absent or holds a complete metatable. */
  predicate Whole(w: World) {
    w.registry.Some? ==> w.registry.value < |w.metatables| && Complete(w.metatables[w.registry.value], w.closes)
  }

  /** Each value given is dropped or held, once. */
  ghost predicate Conserved(w: World) {
    forall x :: multiset(w.dropped)[x] + Held(w.blocks, x) == w.given[x]
  }

  ghost predicate Sound(w: World) {
    Whole(w) && Conserved(w)
  }

  lemma TakenConserves(w: World, i: nat)
    requires Conserved(w) && i < |w.blocks|
    ensures Conserved(Taken(w, i))
  {
    var b, r := w.blocks[i], Taken(w, i);
    forall x ensures multiset(r.dropped)[x] + Held(r.blocks, x) == r.given[x] {
      HeldUpdate(w.blocks, i, b.(slot := None), x);
      assert multiset(r.dropped) == multiset(w.dropped) + multiset(Inside(b));
      assert multiset(w.dropped)[x] + Held(w.blocks, x) == w.given[x];
    }
  }

  lemma CollectedConserves(w: World, i: nat)
    requires Conserved(w)
    ensures Conserved(Collected(w, i))
  {
    if i < |w.blocks| && w.blocks[i].due {
      var b := w.blocks[i].(due := false);
      var v := w.(blocks := w.blocks[i := b]);
      forall x ensures Held(v.blocks, x) == Held(w.blocks, x) {
        HeldUpdate(w.blocks, i, b, x);
      }
      TakenConserves(v, i);
    }
  }

  lemma {:induction false} RunIsSound(w: World, deeds: seq<Deed>)
    requires Sound(w)
    ensures Sound(Run(w, deeds))
    decreases deeds
  {
    if deeds != [] {
      ActIsSound(w, deeds[0]);
      RunIsSound(Act(w, deeds[0]), deeds[1..]);
    }
  }

  lemma ClosedConserves(w: World, i: nat)
    requires Conserved(w)
    ensures Conserved(Closed(w, i)) && Conserved(Abandoned(w, i))
  {
    if i < |w.blocks| {
      TakenConserves(w, i);
    }
  }

  lemma DeedConserves(w: World, d: Deed)
    requires Conserved(w) && !d.Make?
    ensures Conserved(Act(w, d))
  {
    match d
    case Collect(i) => CollectedConserves(w, i);
    case Close(i) => ClosedConserves(w, i);
    case Abandon(i) => ClosedConserves(w, i);
  }

  lemma DeedKeepsMetatables(w: World, d: Deed)
    requires !d.Make?
    ensures var r := Act(w, d); r.registry == w.registry && r.metatables == w.metatables && r.closes == w.closes
  {
  }

  lemma {:induction false} ActIsSound(w: World, d: Deed)
    requires Sound(w)
    ensures Sound(Act(w, d))
    decreases d
  {
    if d.Make? {
      CreatedIsSound(w, d.value, d.turns);
    } else {
      DeedConserves(w, d);
      DeedKeepsMetatables(w, d);
    }
  }

  lemma {:induction false} TookIsSound(w: World, t: Turn)
    requires Sound(w)
    ensures Sound(Took(w, t))
    decreases t
  {
    RunIsSound(w, t.deeds);
  }

  lemma {:induction false} AllocatedIsSound(w: World, turns: seq<Turn>, k: nat)
    requires Sound(w)
    ensures Sound(Allocated(w, turns, k).0)
    decreases turns, 0
  {
    if k < |turns| {
      TookIsSound(w, turns[k]);
    }
  }

  /** A metatable that is not registered yet is as far as its builder has come, whoever else publishes meanwhile. */
  predicate Building(w: World, id: nat, k: nat) {
    id < |w.metatables| && w.registry != Some(id) && w.metatables[id] == Stage(w.closes, k)
  }

  lemma LaidIsSound(w: World, a: World, id: nat, k: nat)
    requires 1 <= k <= 8 && Building(w, id, k - 1) && Grows(w, a) && Sound(a) && (k == 7 ==> w.closes)
    ensures Sound(Laid(a, id, k)) && Building(Laid(a, id, k), id, k)
  {
    assert a.metatables[id] == w.metatables[id];
  }

  lemma BuiltStep(w: World, id: nat, turns: seq<Turn>, k: nat)
    requires id < |w.metatables| && 1 <= k <= 8 && (k == 7 ==> w.closes)
    ensures var (a, ok) := Allocated(w, turns, k);
      Built(w, id, turns, k) == if ok then Built(Laid(a, id, k), id, turns, k + 1) else (a, false)
  {
  }

  lemma {:induction false} BuiltIsSound(w: World, id: nat, turns: seq<Turn>, k: nat)
    requires Sound(w) && 1 <= k <= 9 && Building(w, id, k - 1)
    ensures Sound(Built(w, id, turns, k).0)
    ensures Built(w, id, turns, k).1 ==> Building(Built(w, id, turns, k).0, id, 8)
    decreases turns, 1, 9 - k
  {
    if k == 7 && !w.closes {
      BuiltIsSound(w, id, turns, 8);
    } else {
      AllocatedIsSound(w, turns, k);
      var (a, ok) := Allocated(w, turns, k);
      if k == 9 {
        assert a.metatables[id] == w.metatables[id];
      } else {
        BuiltStep(w, id, turns, k);
        if ok {
          LaidIsSound(w, a, id, k);
          BuiltIsSound(Laid(a, id, k), id, turns, k + 1);
        }
      }
    }
  }

  lemma {:induction false} PublishedIsSound(w: World, turns: seq<Turn>)
    requires Sound(w) && w.registry.None?
    ensures Sound(Published(w, turns).0)
    decreases turns, 2
  {
    AllocatedIsSound(w, turns, 0);
    var (a, found) := Allocated(w, turns, 0);
    if found {
      BuiltIsSound(a.(metatables := a.metatables + [BARE]), |a.metatables|, turns, 1);
    }
  }

  lemma {:induction false} DispatchedIsSound(w: World, turns: seq<Turn>)
    requires Sound(w)
    ensures Sound(Dispatched(w, turns).0)
    decreases turns, 3
  {
    if w.registry.None? {
      PublishedIsSound(w, turns);
    }
    AllocatedIsSound(if w.registry.None? then Published(w, turns).0 else w, turns, 10);
  }

  lemma NewValueConserves(w: World, value: Owned, b: Block)
    requires Conserved(w) && b.slot == Some(value)
    ensures Conserved(w.(dropped := w.dropped + [value], given := w.given + multiset{value}))
    ensures Conserved(w.(blocks := w.blocks + [b], given := w.given + multiset{value}))
  {
    assert multiset(w.dropped + [value]) == multiset(w.dropped) + multiset{value};
    forall x ensures Held(w.blocks + [b], x) == Held(w.blocks, x) + One(b, x) {
      HeldMore(w.blocks, b, x);
    }
  }

  lemma {:induction false} CreatedIsSound(w: World, value: Owned, turns: seq<Turn>)
    requires Sound(w)
    ensures Sound(Created(w, value, turns))
    decreases turns, 4
  {
    DispatchedIsSound(w, turns);
    var (a, meta) := Dispatched(w, turns);
    NewValueConserves(a, value, NewBlock(a, if meta.Some? then meta.value else 0, Some(value)));
  }
}
