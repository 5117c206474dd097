/** When values owned by Lua userdata are dropped, over every run of creations and finalizers. */
module UserdataTheorems {
  import opened Wrappers
  import opened Userdata

  // When every value will be dropped

  /** A block that holds a value will be finalized, and the finalizer will know it by the registered metatable. */
  predicate Guarded(b: Block, registry: Option<nat>) {
    b.slot.Some? ==> b.due && Some(b.meta) == registry
  }

  predicate AllGuarded(w: World) {
    forall i :: 0 <= i < |w.blocks| ==> Guarded(w.blocks[i], w.registry)
  }

  /** Every value given is dropped, or held in a block that will drop it. */
  ghost predicate Accounted(w: World) {
    Conserved(w) && AllGuarded(w)
  }

  /** With the metatable registered: so for all blocks, or while the state is being closed for the first n. */
  predicate Kept(w: World, n: nat) {
    && Whole(w) && w.registry.Some? && n <= |w.blocks|
    && forall i :: 0 <= i < |w.blocks| && (i < n || !w.closing) ==> Guarded(w.blocks[i], w.registry)
  }

  lemma {:induction false} RunKeeps(w: World, deeds: seq<Deed>, n: nat)
    requires Kept(w, n)
    ensures Kept(Run(w, deeds), n) && Run(w, deeds).registry == w.registry
    decreases deeds
  {
    if deeds != [] {
      ActKeeps(w, deeds[0], n);
      RunKeeps(Act(w, deeds[0]), deeds[1..], n);
    }
  }

  lemma {:induction false} ActKeeps(w: World, d: Deed, n: nat)
    requires Kept(w, n)
    ensures Kept(Act(w, d), n) && Act(w, d).registry == w.registry
    decreases d
  {
    if d.Make? {
      CreatedKeeps(w, d.value, d.turns, n);
    }
  }

  lemma {:induction false} TookKeeps(w: World, t: Turn, n: nat)
    requires Kept(w, n)
    ensures Kept(Took(w, t), n) && Took(w, t).registry == w.registry
    decreases t
  {
    RunKeeps(w, t.deeds, n);
  }

  lemma {:induction false} AllocatedKeeps(w: World, turns: seq<Turn>, k: nat, n: nat)
    requires Kept(w, n)
    ensures var r := Allocated(w, turns, k).0; Kept(r, n) && r.registry == w.registry
    decreases turns, 0
  {
    if k < |turns| {
      TookKeeps(w, turns[k], n);
    }
  }

  /** With the metatable registered nothing is published. */
  lemma DispatchedIsAllocated(w: World, turns: seq<Turn>)
    requires w.registry.Some?
    ensures var (a, room) := Allocated(w, turns, 10); Dispatched(w, turns) == (a, if room then w.registry else None)
  {
  }

  lemma {:induction false} CreatedKeeps(w: World, value: Owned, turns: seq<Turn>, n: nat)
    requires Kept(w, n)
    ensures Kept(Created(w, value, turns), n) && Created(w, value, turns).registry == w.registry
    decreases turns, 1
  {
    AllocatedKeeps(w, turns, 10, n);
    DispatchedIsAllocated(w, turns);
    var a := Allocated(w, turns, 10).0;
    assert Dispatched(w, turns).0 == a;
    assert NewBlock(a, w.registry.value, Some(value)) == Block(Some(value), w.registry.value, !w.closing);
  }

  /** A guarded block: closing it, where the type closes, and collecting it drop its value at once, and only once. */
  lemma GuardedIsDropped(w: World, i: nat)
    requires i < |w.blocks| && w.blocks[i].slot.Some? && Guarded(w.blocks[i], w.registry)
    ensures var c := Act(w, Collect(i));
      c.blocks[i].slot.None? && c.dropped == w.dropped + [w.blocks[i].slot.value] && Act(c, Collect(i)).dropped == c.dropped
    ensures var c := Act(w, Close(i));
      if w.closes then c.blocks[i].slot.None? && c.dropped == w.dropped + [w.blocks[i].slot.value] && Act(c, Collect(i)).dropped == c.dropped
      else c == w
    ensures var c := Act(w, Abandon(i));
      c.blocks[i].slot.None? && c.dropped == w.dropped + [w.blocks[i].slot.value] && Act(c, Collect(i)).dropped == c.dropped
  {
    var v := w.blocks[i].slot.value;
    assert w.dropped + [v] + [] == w.dropped + [v];
  }

  /** No deed creates a userdata. */
  predicate Quiet(deeds: seq<Deed>) {
    forall i :: 0 <= i < |deeds| ==> !deeds[i].Make?
  }

  predicate AllQuiet(turns: seq<Turn>) {
    forall k :: 0 <= k < |turns| ==> Quiet(turns[k].deeds)
  }

  lemma QuietAct(w: World, d: Deed)
    requires !d.Make?
    ensures var r := Act(w, d);
      r.registry == w.registry && r.metatables == w.metatables && |r.blocks| == |w.blocks| && (AllGuarded(w) ==> AllGuarded(r))
  {
  }

  lemma {:induction false} QuietRun(w: World, deeds: seq<Deed>)
    requires Quiet(deeds)
    ensures var r := Run(w, deeds);
      r.registry == w.registry && r.metatables == w.metatables && |r.blocks| == |w.blocks| && (AllGuarded(w) ==> AllGuarded(r))
    decreases deeds
  {
    if deeds != [] {
      QuietAct(w, deeds[0]);
      QuietRun(Act(w, deeds[0]), deeds[1..]);
    }
  }

  // When a creation succeeds

  /** Whether memory is found at the k-th allocation of a creation; with no turn given it is. */
  predicate Found(turns: seq<Turn>, k: nat) {
    k < |turns| ==> turns[k].ok
  }

  /** The allocations from the k-th on that go into a metatable; the one for __close only where the type closes. */
  predicate AllFound(closes: bool, turns: seq<Turn>, k: nat) {
    forall i :: k <= i <= 9 && (i != 7 || closes) ==> Found(turns, i)
  }

  lemma FoundMore(closes: bool, turns: seq<Turn>, k: nat)
    requires k <= 9
    ensures AllFound(closes, turns, k) <==> ((k == 7 && !closes) || Found(turns, k)) && AllFound(closes, turns, k + 1)
  {
    assert AllFound(closes, turns, k) && (k != 7 || closes) ==> Found(turns, k);
  }

  lemma {:induction false} BuiltExactly(w: World, id: nat, turns: seq<Turn>, k: nat)
    requires id < |w.metatables| && 1 <= k <= 9
    ensures Built(w, id, turns, k).1 <==> AllFound(w.closes, turns, k)
    decreases 9 - k
  {
    FoundMore(w.closes, turns, k);
    if k == 7 && !w.closes {
      BuiltExactly(w, id, turns, 8);
    } else if k < 9 {
      BuiltStep(w, id, turns, k);
      BuiltExactly(Laid(Allocated(w, turns, k).0, id, k), id, turns, k + 1);
    }
  }

  lemma PublishedExactly(w: World, turns: seq<Turn>)
    requires w.registry.None?
    ensures Published(w, turns).1 <==> AllFound(w.closes, turns, 0)
  {
    FoundMore(w.closes, turns, 0);
    var (a, found) := Allocated(w, turns, 0);
    if found {
      BuiltExactly(a.(metatables := a.metatables + [BARE]), |a.metatables|, turns, 1);
    }
  }

  /** The metatable is built only where none is registered, and then all of its allocations must succeed. */
  predicate CanBeMade(w: World, turns: seq<Turn>) {
    (w.registry.None? ==> AllFound(w.closes, turns, 0)) && Found(turns, 10)
  }

  /**
   * A creation succeeds exactly when memory is found for all that it needs, whatever finalizers do meanwhile: then the
   * value is in one new block, and otherwise it is dropped.
   */
  lemma CreatedExactly(w: World, value: Owned, turns: seq<Turn>)
    ensures var (r, a) := (Created(w, value, turns), Dispatched(w, turns).0);
      if CanBeMade(w, turns) then
        |r.blocks| == |a.blocks| + 1 && r.blocks[|a.blocks|].slot == Some(value) && r.dropped == a.dropped
      else r.blocks == a.blocks && r.dropped == a.dropped + [value]
  {
    if w.registry.None? {
      PublishedExactly(w, turns);
    }
  }

  // An undisturbed creation, and what can go wrong with a disturbed one

  lemma {:induction false} BuiltAlone(w: World, id: nat, turns: seq<Turn>, k: nat)
    requires 1 <= k <= 9 && |turns| <= k && id < |w.metatables| && w.metatables[id] == Stage(w.closes, k - 1)
    ensures Built(w, id, turns, k) == (w.(metatables := w.metatables[id := Stage(w.closes, 8)]), true)
    decreases 9 - k
  {
    if k == 7 && !w.closes {
      BuiltAlone(w, id, turns, 8);
    } else if k < 9 {
      BuiltStep(w, id, turns, k);
      BuiltAlone(Laid(w, id, k), id, turns, k + 1);
      assert Laid(w, id, k).metatables[id := Stage(w.closes, 8)] == w.metatables[id := Stage(w.closes, 8)];
    } else {
      assert w.metatables[id := Stage(w.closes, 8)] == w.metatables;
    }
  }

  /** A creation at whose allocations after the first one nothing happens. */
  lemma PublishedAlone(w: World, turns: seq<Turn>)
    requires |turns| <= 1 && w.registry.None?
    ensures var (a, found) := Allocated(w, turns, 0);
      Published(w, turns) == if !found then (a, false)
        else (a.(metatables := a.metatables + [Stage(w.closes, 8)], registry := Some(|a.metatables|)), true)
  {
    var (a, found) := Allocated(w, turns, 0);
    if found {
      BuiltAlone(a.(metatables := a.metatables + [BARE]), |a.metatables|, turns, 1);
      assert (a.metatables + [BARE])[|a.metatables| := Stage(w.closes, 8)] == a.metatables + [Stage(w.closes, 8)];
    }
  }

  lemma CreatedAlone(w: World, value: Owned)
    ensures var r := Created(w, value, []);
      && r.registry.Some? && (w.registry.Some? ==> r.registry == w.registry)
      && (w.registry.None? ==> r.registry == Some(|w.metatables|))
      && |r.blocks| == |w.blocks| + 1 && r.blocks[..|w.blocks|] == w.blocks
      && r.blocks[|w.blocks|].slot == Some(value) && Some(r.blocks[|w.blocks|].meta) == r.registry
      && (w.closing ==> !r.blocks[|w.blocks|].due)
  {
    if w.registry.None? {
      PublishedAlone(w, []);
    }
  }

  lemma OneMake(w: World, value: Owned, ok: bool)
    ensures Took(w, Turn([Make(value, [])], ok)) == Created(w, value, [])
  {
    var d := Make(value, []);
    assert Run(w, [d]) == Run(Act(w, d), [d][1..]);
    assert [d][1..] == [];
  }

  /** What happens at the first allocation when a creation is entered again there: another one, undisturbed. */
  function Reentry(other: Owned): seq<Turn> {
    [Turn([Make(other, [])], true)]
  }

  lemma ReenteredDispatch(w: World, other: Owned)
    requires w.registry.None?
    ensures var a := Created(w, other, []);
      Dispatched(w, Reentry(other))
        == (a.(metatables := a.metatables + [Stage(w.closes, 8)], registry := Some(|a.metatables|)), Some(|a.metatables|))
  {
    OneMake(w, other, true);
    assert Allocated(w, Reentry(other), 0) == (Created(w, other, []), true);
    PublishedAlone(w, Reentry(other));
  }

  /**
   * The first creation of a type, entered again by a finalizer that creates another userdata of the type: the
   * metatable that one got is replaced in the registry, and no finalizer will know its block.
   */
  lemma ReentryLoses(w: World, value: Owned, other: Owned)
    requires w.registry.None?
    ensures var r := Created(w, value, Reentry(other));
      && |r.blocks| == |w.blocks| + 2 && !Guarded(r.blocks[|w.blocks|], r.registry)
      && r.blocks[|w.blocks|].slot == Some(other) && r.blocks[|w.blocks| + 1].slot == Some(value)
  {
    CreatedAlone(w, other);
    ReenteredDispatch(w, other);
  }

  /** The first creation of all, undisturbed. */
  lemma FirstWorld(closes: bool, value: Owned)
    ensures Created(Init(closes), value, [])
      == World(closes, false, Some(0), [Stage(closes, 8)], [Block(Some(value), 0, true)], [], multiset{value})
  {
    PublishedAlone(Init(closes), []);
  }

  lemma ReenteredWorld(closes: bool, value: Owned, other: Owned)
    ensures var r := Created(Init(closes), value, Reentry(other));
      && r.registry == Some(1) && r.dropped == [] && r.given == multiset{other} + multiset{value}
      && r.blocks == [Block(Some(other), 0, true), Block(Some(value), 1, true)]
  {
    FirstWorld(closes, other);
    ReenteredDispatch(Init(closes), other);
  }

  lemma TwoCollected(w: World, value: Owned, other: Owned)
    requires w.blocks == [Block(Some(other), 0, true), Block(Some(value), 1, true)] && w.registry == Some(1) && w.dropped == []
    ensures var r := CollectedFrom(w, 0);
      r.given == w.given && r.dropped == [value] && r.blocks == [Block(Some(other), 0, false), Block(None, 1, false)]
  {
    var a := Collected(w, 0);
    assert a == w.(blocks := [Block(Some(other), 0, false), Block(Some(value), 1, true)]);
    var b := Collected(a, 1);
    assert b == a.(blocks := [Block(Some(other), 0, false), Block(None, 1, false)], dropped := [value]);
    assert CollectedFrom(b, 2) == b;
    assert CollectedFrom(a, 1) == b;
  }

  /** At the very first creation: the value inside is still held when the Lua state has closed. */
  lemma ReentryLeaks(closes: bool, value: Owned, other: Owned)
    ensures var end := ShutDown(Created(Init(closes), value, Reentry(other)), []);
      end.given == multiset{other, value} && end.dropped == [value] && Held(end.blocks, other) == 1
  {
    ReenteredWorld(closes, value, other);
    var v := Created(Init(closes), value, Reentry(other)).(closing := true);
    TwoCollected(v, value, other);
    HeldMore([Block(Some(other), 0, false)], Block(None, 1, false), other);
    HeldMore([], Block(Some(other), 0, false), other);
    assert [] + [Block(Some(other), 0, false)] + [Block(None, 1, false)] == CollectedFrom(v, 0).blocks;
  }

  /**
   * Whatever finalizers do, a creation leaves every value accounted for, exactly when the metatable is registered
   * before it begins and the Lua state is not being closed.
   */
  lemma CreationIsAccountedExactly(w: World, value: Owned)
    requires Sound(w) && Accounted(w)
    ensures (forall turns :: Accounted(Created(w, value, turns))) <==> w.registry.Some? && !w.closing
  {
    if w.registry.None? {
      ReentryLoses(w, value, value);
      assert !Accounted(Created(w, value, Reentry(value)));
    } else if w.closing {
      CreatedAlone(w, value);
      assert !Accounted(Created(w, value, []));
    } else {
      forall turns ensures Accounted(Created(w, value, turns)) {
        CreatedKeeps(w, value, turns, 0);
        CreatedIsSound(w, value, turns);
      }
    }
  }

  /** The same for whole runs of creations, collections, closes and surrenders. */
  lemma RunsAreAccountedExactly(w: World)
    requires Sound(w) && Accounted(w)
    ensures (forall deeds :: Accounted(Run(w, deeds))) <==> w.registry.Some? && !w.closing
  {
    if w.registry.Some? && !w.closing {
      forall deeds ensures Accounted(Run(w, deeds)) {
        RunKeeps(w, deeds, 0);
        RunIsSound(w, deeds);
      }
    } else {
      CreationIsAccountedExactly(w, 0);
      var turns :| !Accounted(Created(w, 0, turns));
      OneDeed(w, Make(0, turns));
      assert !Accounted(Run(w, [Make(0, turns)]));
    }
  }

  lemma OneDeed(w: World, d: Deed)
    ensures Run(w, [d]) == Act(w, d)
  {
    assert Run(w, [d]) == Run(Act(w, d), [d][1..]);
    assert [d][1..] == [];
  }

  // Runs in which the first creation is not entered again

  lemma {:induction false} QuietBuilt(w: World, id: nat, turns: seq<Turn>, k: nat)
    requires id < |w.metatables| && k <= 9 && AllQuiet(turns) && AllGuarded(w) && w.registry.None?
    ensures var r := Built(w, id, turns, k).0; AllGuarded(r) && r.registry.None?
    decreases 9 - k
  {
    if k == 7 && !w.closes {
      QuietBuilt(w, id, turns, 8);
    } else {
      QuietAllocated(w, turns, k);
      var (a, ok) := Allocated(w, turns, k);
      if ok && k < 9 {
        QuietBuilt(Laid(a, id, k), id, turns, k + 1);
      }
    }
  }

  lemma QuietAllocated(w: World, turns: seq<Turn>, k: nat)
    requires AllQuiet(turns)
    ensures var r := Allocated(w, turns, k).0;
      r.registry == w.registry && r.metatables == w.metatables && |r.blocks| == |w.blocks| && (AllGuarded(w) ==> AllGuarded(r))
  {
    if k < |turns| {
      QuietRun(w, turns[k].deeds);
    }
  }

  /** Before the metatable is registered guarded blocks hold nothing, so registering it leaves all as it was. */
  lemma QuietPublished(w: World, turns: seq<Turn>)
    requires AllQuiet(turns) && AllGuarded(w) && w.registry.None?
    ensures AllGuarded(Published(w, turns).0)
  {
    QuietAllocated(w, turns, 0);
    var (a, found) := Allocated(w, turns, 0);
    if found {
      QuietBuilt(a.(metatables := a.metatables + [BARE]), |a.metatables|, turns, 1);
    }
  }

  lemma QuietDispatched(w: World, turns: seq<Turn>)
    requires AllQuiet(turns) && Sound(w) && AllGuarded(w) && w.registry.None?
    ensures var (r, meta) := Dispatched(w, turns); AllGuarded(r) && Sound(r) && (meta.Some? ==> meta == r.registry)
  {
    QuietPublished(w, turns);
    QuietAllocated(Published(w, turns).0, turns, 10);
    DispatchedIsSound(w, turns);
  }

  lemma QuietCreated(w: World, value: Owned, turns: seq<Turn>)
    requires AllQuiet(turns) && Sound(w) && AllGuarded(w) && w.registry.None? && !w.closing
    ensures AllGuarded(Created(w, value, turns))
  {
    QuietDispatched(w, turns);
  }

  /** While no metatable is registered, no finalizer that runs inside a creation creates a userdata of the type. */
  predicate Undisturbed(w: World, deeds: seq<Deed>)
    decreases deeds
  {
    deeds == [] || ((w.registry.None? && deeds[0].Make? ==> AllQuiet(deeds[0].turns)) && Undisturbed(Act(w, deeds[0]), deeds[1..]))
  }

  lemma {:induction false} UndisturbedRun(w: World, deeds: seq<Deed>)
    requires Sound(w) && Accounted(w) && !w.closing && Undisturbed(w, deeds)
    ensures Sound(Run(w, deeds)) && Accounted(Run(w, deeds))
    decreases deeds
  {
    if deeds != [] {
      UndisturbedAct(w, deeds[0]);
      UndisturbedRun(Act(w, deeds[0]), deeds[1..]);
    }
  }

  lemma UndisturbedAct(w: World, d: Deed)
    requires Sound(w) && Accounted(w) && !w.closing && (w.registry.None? && d.Make? ==> AllQuiet(d.turns))
    ensures Sound(Act(w, d)) && Accounted(Act(w, d))
  {
    ActIsSound(w, d);
    if w.registry.Some? {
      ActKeeps(w, d, 0);
    } else if d.Make? {
      QuietCreated(w, d.value, d.turns);
    } else {
      QuietAct(w, d);
    }
  }

  // Closing the Lua state

  lemma CollectedIsSound(w: World, i: nat)
    requires Sound(w)
    ensures Sound(Collected(w, i)) && |Collected(w, i).blocks| == |w.blocks|
  {
    CollectedConserves(w, i);
  }

  lemma {:induction false} CollectedFromIsSound(w: World, i: nat)
    requires Sound(w)
    ensures Sound(CollectedFrom(w, i))
    decreases |w.blocks| - i
  {
    if i < |w.blocks| {
      CollectedIsSound(w, i);
      CollectedFromIsSound(Collected(w, i), i + 1);
    }
  }

  lemma {:induction false} CollectedFromEmpties(w: World, i: nat, n: nat)
    requires i <= n <= |w.blocks|
    requires forall j :: 0 <= j < n ==> if j < i then w.blocks[j].slot.None? else Guarded(w.blocks[j], w.registry)
    ensures var r := CollectedFrom(w, i); |r.blocks| == |w.blocks| && forall j :: 0 <= j < n ==> r.blocks[j].slot.None?
    decreases |w.blocks| - i
  {
    if i < n {
      CollectedFromEmpties(Collected(w, i), i + 1, n);
    } else {
      CollectedFromKeeps(w, i, n);
    }
  }

  lemma {:induction false} CollectedFromKeeps(w: World, i: nat, n: nat)
    requires n <= i && n <= |w.blocks| && forall j :: 0 <= j < n ==> w.blocks[j].slot.None?
    ensures var r := CollectedFrom(w, i); |r.blocks| == |w.blocks| && forall j :: 0 <= j < n ==> r.blocks[j].slot.None?
    decreases |w.blocks| - i
  {
    if i < |w.blocks| {
      CollectedFromKeeps(Collected(w, i), i + 1, n);
    }
  }

  /** Whatever finalizers do while the state closes, the values not dropped at the end are those in userdata made meanwhile. */
  lemma ShutDownLeavesNew(w: World, deeds: seq<Deed>)
    requires Sound(w) && Accounted(w)
    ensures var end := ShutDown(w, deeds);
      && Sound(end) && |w.blocks| <= |end.blocks| && (forall i :: 0 <= i < |w.blocks| ==> end.blocks[i].slot.None?)
      && (forall x :: multiset(end.dropped)[x] + Held(end.blocks[|w.blocks|..], x) == end.given[x])
  {
    var v := w.(closing := true);
    var a := Run(v, deeds);
    RunIsSound(v, deeds);
    if w.registry.Some? {
      RunKeeps(v, deeds, |w.blocks|);
    }
    CollectedFromEmpties(a, 0, |w.blocks|);
    CollectedFromIsSound(a, 0);
    forall x ensures Held(CollectedFrom(a, 0).blocks, x) == Held(CollectedFrom(a, 0).blocks[|w.blocks|..], x) {
      HeldBehind(CollectedFrom(a, 0).blocks, |w.blocks|, x);
    }
  }

  /** Each value ever given has been dropped, and none of them twice. */
  predicate AllDropped(w: World) {
    multiset(w.dropped) == w.given
  }

  lemma QuietShutDown(w: World, deeds: seq<Deed>)
    requires Sound(w) && Accounted(w) && Quiet(deeds)
    ensures AllDropped(ShutDown(w, deeds))
  {
    ShutDownLeavesNew(w, deeds);
    QuietRun(w.(closing := true), deeds);
    CollectedFromSize(Run(w.(closing := true), deeds), 0);
    var end := ShutDown(w, deeds);
    forall x ensures multiset(end.dropped)[x] == end.given[x] {
      assert Held(end.blocks[|w.blocks|..], x) == 0;
    }
  }

  lemma {:induction false} CollectedFromSize(w: World, i: nat)
    ensures |CollectedFrom(w, i).blocks| == |w.blocks|
    decreases |w.blocks| - i
  {
    if i < |w.blocks| {
      CollectedFromSize(Collected(w, i), i + 1);
    }
  }

  lemma ClosingBlock(w: World, value: Owned)
    ensures var end := ShutDown(w, [Make(value, [])]); |end.blocks| == |w.blocks| + 1 && end.blocks[|w.blocks|].slot == Some(value)
  {
    var v := w.(closing := true);
    OneDeed(v, Make(value, []));
    CreatedAlone(v, value);
    NotDueStays(Created(v, value, []), 0, |w.blocks|);
  }

  /** A userdata made while the state closes is never finalized. */
  lemma ClosingLeaks(w: World, value: Owned)
    requires Sound(w) && Accounted(w)
    ensures var end := ShutDown(w, [Make(value, [])]); end.given == multiset(end.dropped) + multiset{value}
  {
    ClosingBlock(w, value);
    ShutDownLeavesNew(w, [Make(value, [])]);
    var end, n := ShutDown(w, [Make(value, [])]), |w.blocks|;
    assert end.blocks[n..] == [end.blocks[n]];
    forall x ensures end.given[x] == multiset(end.dropped)[x] + multiset{value}[x] {
      HeldMore([], end.blocks[n], x);
      assert Held(end.blocks[n..], x) == One(end.blocks[n], x);
    }
  }

  lemma {:induction false} NotDueStays(w: World, i: nat, n: nat)
    requires n < |w.blocks| && !w.blocks[n].due
    ensures var r := CollectedFrom(w, i); |r.blocks| == |w.blocks| && r.blocks[n] == w.blocks[n]
    decreases |w.blocks| - i
  {
    if i < |w.blocks| {
      NotDueStays(Collected(w, i), i + 1, n);
    }
  }

  /** Closing drops each value ever given exactly once, whatever finalizers do, exactly when none of them creates a userdata. */
  lemma ShutDownDropsAllExactly(w: World, mayCreate: bool)
    requires Sound(w) && Accounted(w)
    ensures (forall deeds :: mayCreate || Quiet(deeds) ==> AllDropped(ShutDown(w, deeds))) <==> !mayCreate
  {
    if mayCreate {
      ClosingLeaks(w, 0);
      assert !AllDropped(ShutDown(w, [Make(0, [])]));
    } else {
      forall deeds | Quiet(deeds) ensures AllDropped(ShutDown(w, deeds)) {
        QuietShutDown(w, deeds);
      }
    }
  }

  /** In every life of a type, values are dropped at most once, and the registry is empty or holds a complete metatable. */
  lemma LifeIsSound(closes: bool, deeds: seq<Deed>, last: seq<Deed>)
    ensures Sound(Run(Init(closes), deeds))
    ensures var end := ShutDown(Run(Init(closes), deeds), last); Sound(end) && multiset(end.dropped) <= end.given
  {
    RunIsSound(Init(closes), deeds);
    RunIsSound(Run(Init(closes), deeds).(closing := true), last);
    CollectedFromIsSound(Run(Run(Init(closes), deeds).(closing := true), last), 0);
    var end := ShutDown(Run(Init(closes), deeds), last);
    forall x ensures multiset(end.dropped)[x] <= end.given[x] {
      assert Held(end.blocks, x) >= 0;
    }
  }

  /** And in every life whose first creation is not entered again, and whose end creates nothing, exactly once. */
  lemma LifeDropsAll(closes: bool, deeds: seq<Deed>, last: seq<Deed>)
    requires Undisturbed(Init(closes), deeds) && Quiet(last)
    ensures AllDropped(ShutDown(Run(Init(closes), deeds), last))
  {
    UndisturbedRun(Init(closes), deeds);
    QuietShutDown(Run(Init(closes), deeds), last);
  }
}
