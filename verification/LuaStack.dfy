/** The Lua stack machine: array detection and the two table iterators run on it and leave it as they found it. */
module LuaStack {
  import opened Bytes
  import opened LuaTables
  import opened Wrappers

  /** The key and value of an entry, as iteration leaves them on the stack. */
  function Pair(es: seq<Entry>, i: nat): seq<LuaValue> {
    if i < |es| then [es[i].key, es[i].value] else []
  }

  /** The key that iteration continues from to reach an entry. */
  function KeyBefore(es: seq<Entry>, i: nat): LuaValue
    requires i <= |es|
  {
    if i == 0 then Nil else es[i - 1].key
  }

  lemma RemoveBetween<T>(below: seq<T>, x: T, above: seq<T>)
    ensures var s := below + [x] + above; s[..|below|] + s[|below| + 1..] == below + above
  {
  }

  class LuaState {
    var stack: seq<LuaValue>
    var heap: Heap
    var next: Ref // no table has this or a later reference

    ghost predicate Valid()
      reads this
    {
      LegalHeap(heap) && forall r :: r in heap ==> r < next
    }

    method Push(v: LuaValue)
      modifies this`stack
      ensures stack == old(stack) + [v]
    {
      stack := stack + [v];
    }

    method SetTop(n: nat)
      requires n <= |stack|
      modifies this`stack
      ensures stack == old(stack[..n])
    {
      stack := stack[..n];
    }

    method Pop(n: nat)
      requires n <= |stack|
      modifies this`stack
      ensures stack == old(stack[..|stack| - n])
    {
      stack := stack[..|stack| - n];
    }

    /** Takes the value out at a position counted from the bottom. */
    method Remove(i: nat)
      requires i < |stack|
      modifies this`stack
      ensures stack == old(stack[..i] + stack[i + 1..])
    {
      stack := stack[..i] + stack[i + 1..];
    }

    method RawLen(r: Ref) returns (n: nat)
      ensures n == At(heap, r).border
    {
      n := At(heap, r).border;
    }

    /** Pushes the value of a metafield that is there, and nothing otherwise. */
    method GetMetaField(there: bool)
      modifies this`stack
      ensures there ==> |stack| == |old(stack)| + 1 && stack[..|old(stack)|] == old(stack)
      ensures !there ==> stack == old(stack)
    {
      if there {
        stack := stack + [Boolean(true)];
      }
    }

    method RawGetI(r: Ref, i: int)
      modifies this`stack
      ensures stack == old(stack) + [Get(At(heap, r), i)]
    {
      stack := stack + [Get(At(heap, r), i)];
    }

    /** Pushes a new table. */
    method CreateTable() returns (r: Ref)
      requires Valid()
      modifies this
      ensures Valid() && r == old(next) && next == r + 1
      ensures stack == old(stack) + [Table(r)] && heap == old(heap)[r := EMPTY]
    {
      r := next;
      next := next + 1;
      heap := heap[r := EMPTY];
      stack := stack + [Table(r)];
    }

    /** Pops a value into the next slot of a table's array part, which keeps ascending order. */
    method RawSetI(r: Ref, i: nat)
      requires Valid() && r in heap && stack != [] && stack[|stack| - 1] != Nil
      requires IsSequence(heap[r]) && i == |heap[r].entries| + 1
      modifies this`stack, this`heap
      ensures Valid() && stack == old(stack[..|stack| - 1])
      ensures heap == old(heap)[r := Appended(old(heap)[r], old(stack[|stack| - 1]))]
    {
      AppendedIsSequence(heap[r], stack[|stack| - 1]);
      heap := heap[r := Appended(heap[r], stack[|stack| - 1])];
      stack := stack[..|stack| - 1];
    }

    /** Pops a value into a new string key, which comes up anywhere in the order of iteration. */
    method RawSet(r: Ref, key: Text) returns (k: nat)
      requires Valid() && r in heap && stack != [] && stack[|stack| - 1] != Nil
      requires IndexOf(heap[r].entries, String(key)) == |heap[r].entries|
      modifies this`stack, this`heap
      ensures Valid() && stack == old(stack[..|stack| - 1])
      ensures k <= |old(heap)[r].entries|
      ensures heap == old(heap)[r := Inserted(old(heap)[r], k, key, old(stack[|stack| - 1]))]
    {
      k :| 0 <= k <= |heap[r].entries|;
      InsertedIsLegal(heap[r], k, key, stack[|stack| - 1]);
      heap := heap[r := Inserted(heap[r], k, key, stack[|stack| - 1])];
      stack := stack[..|stack| - 1];
    }

    /** The entry that follows a key, from nil for the first; only keys of the table have a next one. */
    ghost function Following(r: Ref, key: LuaValue): (i: nat)
      reads this
      requires key == Nil || IndexOf(At(heap, r).entries, key) < |At(heap, r).entries|
      ensures i <= |At(heap, r).entries|
    {
      if key == Nil then 0 else IndexOf(At(heap, r).entries, key) + 1
    }

    /** Replaces the key on top by the entry that follows it, or drops it when there is none. */
    method Next(r: Ref) returns (more: bool)
      requires stack != []
      requires var key := stack[|stack| - 1]; key == Nil || IndexOf(At(heap, r).entries, key) < |At(heap, r).entries|
      modifies this`stack
      ensures var es, i := At(heap, r).entries, old(Following(r, stack[|stack| - 1]));
        && more == (i < |es|)
        && stack == old(stack[..|stack| - 1]) + Pair(es, i)
    {
      var es, key, rest := At(heap, r).entries, stack[|stack| - 1], stack[..|stack| - 1];
      var i := if key == Nil then 0 else IndexOf(es, key) + 1;
      more := i < |es|;
      stack := rest + Pair(es, i);
    }

    /** Pushes nil and steps to the first entry: leaves its key and value, or nothing. */
    method First(r: Ref) returns (more: bool)
      requires Legal(At(heap, r))
      modifies this`stack
      ensures var es := At(heap, r).entries;
        && more == (es != [])
        && stack == old(stack) + Pair(es, 0)
    {
      Push(Nil);
      more := Next(r);
    }

    /** The protected form of Next works on a copy of the key: the key stays, and its successor comes above it. */
    method CallNext(r: Ref) returns (more: bool)
      requires stack != []
      requires var key := stack[|stack| - 1]; key == Nil || IndexOf(At(heap, r).entries, key) < |At(heap, r).entries|
      modifies this`stack
      ensures var es, i := At(heap, r).entries, old(Following(r, stack[|stack| - 1]));
        && more == (i < |es|)
        && stack == old(stack) + Pair(es, i)
    {
      Push(stack[|stack| - 1]);
      more := Next(r);
    }

    /** One step of Pairs: from the key at a height to the entry after it, with what was above that key gone. */
    method StepFrom(r: Ref, top: nat, ghost i: nat) returns (more: bool)
      requires Legal(At(heap, r)) && i <= |At(heap, r).entries|
      requires top < |stack| && stack[top] == KeyBefore(At(heap, r).entries, i)
      modifies this`stack
      ensures var es := At(heap, r).entries;
        && more == (i < |es|)
        && (more ==> stack == old(stack)[..top] + Pair(es, i))
        && (!more ==> stack == old(stack)[..top + 1])
    {
      ghost var es, below := At(heap, r).entries, stack[..top];
      if i > 0 {
        Found(es, i - 1);
      }
      SetTop(top + 1);
      assert stack == below + [KeyBefore(es, i)];
      more := CallNext(r);
      if more {
        RemoveBetween(below, KeyBefore(es, i), Pair(es, i));
        Remove(top);
      }
    }

    /** Pops the value of an entry and steps to the next one. */
    method Step(r: Ref, ghost base: seq<LuaValue>, ghost i: nat) returns (more: bool)
      requires Legal(At(heap, r))
      requires var es := At(heap, r).entries; i < |es| && stack == base + Pair(es, i)
      modifies this`stack
      ensures var es := At(heap, r).entries; more == (i + 1 < |es|) && stack == base + Pair(es, i + 1)
    {
      ghost var es := At(heap, r).entries;
      Pop(1);
      Found(es, i);
      assert stack == base + [es[i].key];
      more := Next(r);
    }

    /** The first key when it is an integer, and 0 otherwise. */
    method FirstKey() returns (key: int)
      requires |stack| >= 2
      modifies this`stack
      ensures stack == old(stack[..|stack| - 2])
      ensures key == old(var k := stack[|stack| - 2]; if k.Integer? then k.number else 0)
    {
      var k := stack[|stack| - 2];
      key := if k.Integer? then k.number else 0;
      Pop(2);
    }

    /** Whether iteration ends at a key. */
    method EndsAt(r: Ref, n: int) returns (last: bool)
      requires Distinct(At(heap, r).entries)
      requires IndexOf(At(heap, r).entries, Integer(n)) < |At(heap, r).entries|
      modifies this`stack
      ensures stack == old(stack)
      ensures var es := At(heap, r).entries; last <==> es[|es| - 1].key == Integer(n)
    {
      Push(Integer(n));
      var more := Next(r);
      if more {
        Pop(2);
      }
      last := !more;
    }

    /** Whether all keys are integers of 1 to n, leaving at the first that is not. */
    method KeysWithin(r: Ref, n: int) returns (all: bool)
      requires Legal(At(heap, r))
      modifies this`stack
      ensures stack == old(stack)
      ensures all == Within(At(heap, r).entries, n)
    {
      ghost var es, base := At(heap, r).entries, stack;
      ghost var i := 0;
      var more := First(r);
      all := true;
      while more && all
        invariant i <= |es| && (all ==> more == (i < |es|))
        invariant stack == base + if all then Pair(es, i) else []
        invariant forall j :: 0 <= j < i ==> InRange(es[j].key, n)
        invariant !all ==> i < |es| && !InRange(es[i].key, n)
        decreases all, |es| - i
      {
        if InRange(stack[|stack| - 2], n) {
          more := Step(r, base, i);
          i := i + 1;
        } else {
          Pop(2);
          all := false;
        }
      }
    }

    /** lua_array_size: whether a table is an array and how long, with the stack as it was. */
    method ArraySize(r: Ref) returns (isArray: bool, size: nat)
      requires Legal(At(heap, r))
      modifies this`stack
      ensures (isArray, size) == ArrayShape(At(heap, r))
      ensures stack == old(stack)
    {
      GetMetaField(At(heap, r).markedArray);
      if At(heap, r).markedArray {
        Pop(1);
        size := RawLen(r);
        return true, size;
      }
      GetMetaField(At(heap, r).markedObject);
      if At(heap, r).markedObject {
        Pop(1);
        return false, 0;
      }
      var len := RawLen(r);
      var more := First(r);
      if !more {
        return false, 0;
      }
      var firstKey := FirstKey();
      if firstKey <= 0 {
        return false, 0;
      } else if firstKey == 1 {
        LengthIsKey(At(heap, r));
        var last := EndsAt(r, len);
        if !last {
          return false, 0;
        }
      }
      len := RawLen(r);
      if firstKey > len {
        return false, 0;
      }
      isArray := KeysWithin(r, len);
      size := if isArray then len else 0;
    }
  }

  /** A first key of 1 makes the length a key of the table, so stepping on from it is no error. */
  lemma LengthIsKey(t: LuaTable)
    requires Legal(t) && t.entries != [] && t.entries[0].key == Integer(1)
    ensures IndexOf(t.entries, Integer(t.border)) < |t.entries|
  {
    Found(t.entries, 0);
  }

  /** Pairs: visits every entry of a table once, in order; the stack below it is left alone. */
  class Pairs {
    const state: LuaState
    const table: Ref
    const top: nat
    var done: bool
    ghost var index: nat

    ghost function Entries(): seq<Entry>
      reads state
    {
      At(state.heap, table).entries
    }

    ghost predicate Valid()
      reads this, state
    {
      && Legal(At(state.heap, table)) && index <= |Entries()| && top < |state.stack|
      && if done then index == |Entries()|
         else state.stack[top] == KeyBefore(Entries(), index)
    }

    constructor (s: LuaState, r: Ref)
      requires Legal(At(s.heap, r))
      modifies s`stack
      ensures Valid() && state == s && table == r && top == |old(s.stack)| && index == 0 && !done
      ensures s.stack == old(s.stack) + [Nil]
    {
      state, table, top, done, index := s, r, |s.stack|, false, 0;
      new;
      s.Push(Nil);
    }

    method Next() returns (entry: Option<Entry>)
      requires Valid()
      modifies this, state`stack
      ensures Valid()
      ensures old(index) < |Entries()| ==>
        entry == Some(Entries()[old(index)]) && index == old(index) + 1
        && state.stack == old(state.stack)[..top] + Pair(Entries(), old(index))
      ensures old(index) == |Entries()| ==>
        entry == None && index == old(index) && done && state.stack[..top] == old(state.stack)[..top]
    {
      if done {
        return None;
      }
      var more := state.StepFrom(table, top, index);
      done := !more;
      if done {
        return None;
      }
      entry := Some(Entry(state.stack[top], state.stack[top + 1]));
      index := index + 1;
    }

    /** Dropping the iterator restores the height the stack had before it. */
    method Drop()
      requires Valid()
      modifies state`stack
      ensures state.stack == old(state.stack)[..top]
    {
      state.SetTop(top);
    }
  }

  /** Values: the values at indices 1 to len, nil where the table has none. */
  class Values {
    const state: LuaState
    const table: Ref
    const top: nat
    const len: nat
    var position: nat

    ghost predicate Valid()
      reads this, state
    {
      position <= len && top <= |state.stack|
    }

    constructor (s: LuaState, r: Ref, n: nat)
      ensures Valid() && state == s && table == r && top == |s.stack| && len == n && position == 0
    {
      state, table, top, len, position := s, r, |s.stack|, n, 0;
    }

    method Next() returns (value: Option<LuaValue>)
      requires Valid()
      modifies this, state`stack
      ensures Valid()
      ensures old(position) < len ==>
        value == Some(Get(At(state.heap, table), position)) && position == old(position) + 1
        && state.stack == old(state.stack)[..top] + [Get(At(state.heap, table), position)]
      ensures old(position) == len ==>
        value == None && position == old(position) && state.stack == old(state.stack)[..top]
    {
      state.SetTop(top);
      if position == len {
        return None;
      }
      position := position + 1;
      state.RawGetI(table, position);
      value := Some(state.stack[top]);
    }

    method Drop()
      requires Valid()
      modifies state`stack
      ensures state.stack == old(state.stack)[..top]
    {
      state.SetTop(top);
    }
  }
}
