/** The code that creates, finalizes and gives up userdata of one type, and what the Lua state around it does. */
module UserdataRealm {
  import opened Wrappers
  import opened Userdata
  import opened UserdataTheorems

  class Realm {
    const closes: bool
    var closing: bool
    var registry: Option<nat>
    var metatables: seq<Metatable>
    var blocks: seq<Block>
    var dropped: seq<Owned>
    ghost var given: multiset<Owned>

    ghost function Now(): World
      reads this
    {
      World(closes, closing, registry, metatables, blocks, dropped, given)
    }

    constructor (close: bool)
      ensures Now() == Init(close) && Sound(Now()) && Accounted(Now())
    {
      closes := close;
      closing, registry, metatables, blocks, dropped, given := false, None, [], [], [], multiset{};
    }

    /** Option::take and the drop of what it gave. */
    method Take(i: nat)
      requires i < |blocks|
      modifies this`blocks, this`dropped
      ensures Now() == Taken(old(Now()), i)
      ensures blocks[i].slot.None? && dropped == old(dropped) + Inside(old(blocks)[i])
    {
      dropped := dropped + Inside(blocks[i]);
      blocks := blocks[i := blocks[i].(slot := None)];
    }

    /** __gc and __close run the same function; once or more, in any order. */
    method Finalize(i: nat)
      requires i < |blocks|
      modifies this`blocks, this`dropped
      ensures Now() == Finalized(old(Now()), i)
      ensures old(Guarded(blocks[i], registry)) ==> blocks[i].slot.None? && dropped == old(dropped) + Inside(old(blocks)[i])
      ensures old(Sound(Now())) ==> Sound(Now())
    {
      if old(Sound(Now())) {
        TakenConserves(old(Now()), i);
      }
      if Some(blocks[i].meta) == registry {
        Take(i);
      }
    }

    /** abandon_guard: the value goes at once, and a later finalizer finds nothing. */
    method Abandon(i: nat)
      requires i < |blocks|
      modifies this`blocks, this`dropped
      ensures Now() == Abandoned(old(Now()), i)
      ensures blocks[i].slot.None? && dropped == old(dropped) + Inside(old(blocks)[i])
      ensures Finalized(Now(), i) == Now()
    {
      Take(i);
      assert blocks[i].(slot := None) == blocks[i];
      assert blocks[i := blocks[i]] == blocks && dropped + [] == dropped;
    }

    method FinalizeIfDue(i: nat)
      modifies this`blocks, this`dropped
      ensures Now() == Collected(old(Now()), i)
    {
      if i < |blocks| && blocks[i].due {
        blocks := blocks[i := blocks[i].(due := false)];
        Finalize(i);
      }
    }

    /** What other code does with userdata of this type, one thing after another. */
    method Happen(deeds: seq<Deed>)
      modifies this
      ensures Now() == Run(old(Now()), deeds)
      decreases deeds
    {
      for i := 0 to |deeds|
        invariant Run(old(Now()), deeds) == Run(Now(), deeds[i..])
      {
        assert deeds[i..][1..] == deeds[i + 1..];
        HappenOnce(deeds[i]);
      }
    }

    method HappenOnce(d: Deed)
      modifies this
      ensures Now() == Act(old(Now()), d)
      decreases d
    {
      match d
      case Make(value, turns) => var _ := Create(value, turns);
      case Collect(i) => FinalizeIfDue(i);
      case Close(i) => if i < |blocks| && closes { Finalize(i); }
      case Abandon(i) => if i < |blocks| { Abandon(i); }
    }

    method TakeTurn(t: Turn)
      modifies this
      ensures Now() == Took(old(Now()), t)
      decreases t
    {
      Happen(t.deeds);
    }

    /** An allocation may first collect garbage, with all that finalizers do, and may then fail. */
    method Allocate(turns: seq<Turn>, k: nat) returns (ok: bool)
      modifies this
      ensures (Now(), ok) == Allocated(old(Now()), turns, k)
      decreases turns, 0
    {
      ok := true;
      if k < |turns| {
        TakeTurn(turns[k]);
        ok := turns[k].ok;
      }
    }

    /** Sets a field of a metatable that is still being built. */
    method SetField(id: nat, m: Metatable, turns: seq<Turn>, k: nat) returns (ok: bool)
      requires id < |metatables| && k in {2, 5, 6, 7, 8} && m == Stage(closes, k) && (k == 7 ==> closes)
      modifies this
      ensures id < |metatables|
      ensures Built(old(Now()), id, turns, k) == if ok then Built(Now(), id, turns, k + 1) else (Now(), false)
      decreases turns, 1
    {
      ok := Allocate(turns, k);
      if ok {
        metatables := metatables[id := m];
      }
    }

    method Name(id: nat, turns: seq<Turn>) returns (ok: bool)
      requires id < |metatables|
      modifies this
      ensures id < |metatables|
      ensures Built(old(Now()), id, turns, 1) == if ok then Built(Now(), id, turns, 3) else (Now(), false)
      decreases turns, 2
    {
      ok := Allocate(turns, 1); // the text of the name
      if ok {
        ok := SetField(id, BARE.(name := true), turns, 2);
      }
    }

    method Methods(id: nat, turns: seq<Turn>) returns (ok: bool)
      requires id < |metatables|
      modifies this
      ensures id < |metatables|
      ensures Built(old(Now()), id, turns, 3) == if ok then Built(Now(), id, turns, 6) else (Now(), false)
      decreases turns, 2
    {
      ok := Allocate(turns, 3); // the method table
      if ok {
        ok := Allocate(turns, 4); // its functions
      }
      if ok {
        ok := SetField(id, BARE.(name := true, index := true), turns, 5);
      }
    }

    method Finalizers(id: nat, turns: seq<Turn>) returns (ok: bool)
      requires id < |metatables|
      modifies this
      ensures id < |metatables|
      ensures Built(old(Now()), id, turns, 6) == if ok then Built(Now(), id, turns, 9) else (Now(), false)
      decreases turns, 2
    {
      var m := BARE.(name := true, index := true, gc := true);
      ok := SetField(id, m, turns, 6);
      if ok && closes {
        m := m.(close := true);
        ok := SetField(id, m, turns, 7);
      }
      if ok {
        ok := SetField(id, m.(locked := true), turns, 8);
      }
    }

    /** Builds the metatable and, only once it is whole, puts it under the registry key, whatever is there by then. */
    method Publish(turns: seq<Turn>) returns (ok: bool)
      requires registry == None
      modifies this
      ensures (Now(), ok) == Published(old(Now()), turns)
      ensures old(Sound(Now())) ==> Sound(Now())
      decreases turns, 3
    {
      if old(Sound(Now())) {
        PublishedIsSound(old(Now()), turns);
      }
      ok := Allocate(turns, 0); // the table
      if ok {
        var id := |metatables|;
        metatables := metatables + [BARE];
        ok := Name(id, turns);
        if ok {
          ok := Methods(id, turns);
        }
        if ok {
          ok := Finalizers(id, turns);
        }
        if ok {
          ok := Allocate(turns, 9); // the registry may have to grow
        }
        if ok {
          registry := Some(id);
        }
      }
    }

    /** The protected part of a creation: an empty block with the metatable on it, or a Lua error. */
    method Dispatch(turns: seq<Turn>) returns (block: Option<Block>)
      modifies this
      ensures var (w, meta) := Dispatched(old(Now()), turns);
        Now() == w && block == if meta.None? then None else Some(NewBlock(w, meta.value, None))
      ensures old(Sound(Now())) ==> Sound(Now())
      ensures old(Sound(Now()) && registry.Some? && !closing) && block.Some? ==> block.value == Block(None, registry.value, true)
      decreases turns, 4
    {
      if old(Sound(Now())) {
        DispatchedIsSound(old(Now()), turns);
      }
      var ok := true;
      if registry == None {
        ok := Publish(turns);
      }
      block := None;
      if ok {
        var meta := registry.value;
        ok := Allocate(turns, 10); // the userdata
        if ok {
          block := Some(Block(None, meta, meta < |metatables| && metatables[meta].gc && !closing));
        }
      }
    }

    /** userdata: ownership moves into the block after the last step that can fail; on an error the unwind drops the value. */
    method Create(value: Owned, turns: seq<Turn>) returns (ok: bool)
      modifies this
      ensures Now() == Created(old(Now()), value, turns)
      ensures OnlyEmptied(old(blocks), blocks)
      ensures ok ==> blocks != [] && blocks[|blocks| - 1].slot == Some(value)
      ensures !ok ==> dropped != [] && dropped[|dropped| - 1] == value
      decreases turns, 5
    {
      var block := Dispatch(turns);
      ok := block.Some?;
      if ok {
        blocks := blocks + [block.value.(slot := Some(value))];
      } else {
        dropped := dropped + [value];
      }
      given := given + multiset{value};
    }

    /** Closing the Lua state calls all finalizers that are due, and those of other objects in between. */
    method Shutdown(deeds: seq<Deed>)
      modifies this
      ensures Now() == ShutDown(old(Now()), deeds)
      ensures old(Sound(Now()) && Accounted(Now())) && Quiet(deeds) ==> AllDropped(Now())
    {
      if old(Sound(Now()) && Accounted(Now())) && Quiet(deeds) {
        QuietShutDown(old(Now()), deeds);
      }
      closing := true;
      Happen(deeds);
      var count := |blocks|;
      for i := 0 to count
        invariant |blocks| == count
        invariant CollectedFrom(Now(), i) == ShutDown(old(Now()), deeds)
      {
        FinalizeIfDue(i);
      }
    }
  }
}
