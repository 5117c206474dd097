/** JSON values as Lua values: what is pushed reads back as what was given. */
module JsonPush {
  import opened Wrappers
  import opened Bytes
  import opened LuaTables
  import opened LuaStack
  import opened JsonEncoding
  import J = Json

  const I64_MAX: int := 0x7FFF_FFFF_FFFF_FFFF
  const U64_MAX: int := 0xFFFF_FFFF_FFFF_FFFF
  const I64_MIN: int := -0x8000_0000_0000_0000

  /** The integers a parsed JSON number can be. */
  predicate IsNumber(n: int) {
    I64_MIN <= n <= U64_MAX
  }

  /** All integers in a JSON value are such numbers. */
  predicate Numbers(j: J.Json)
    decreases j
  {
    match j
    case Number(n) => IsNumber(n)
    case Array(items) => forall i :: 0 <= i < |items| ==> Numbers(items[i])
    case Object(fields) => forall k :: k in fields ==> Numbers(fields[k])
    case _ => true
  }

  /** An integer too large for Lua is pushed as its digits. */
  function NumberValue(n: int): LuaValue
    requires IsNumber(n)
  {
    if n <= I64_MAX then Integer(n) else String(Signed(n))
  }

  /** The table an array becomes. */
  predicate ArrayIn(h: Heap, t: LuaTable, items: seq<J.Json>, low: Ref)
    decreases items, 0
  {
    && IsSequence(t) && |t.entries| == |items|
    && forall i :: 0 <= i < |items| ==> Holds(h, t.entries[i].value, items[i], low)
  }

  predicate HasField(h: Heap, e: Entry, j: J.Json, low: Ref)
    requires j.Object?
    decreases j, 0
  {
    e.key.String? && e.key.bytes in j.fields && Holds(h, e.value, j.fields[e.key.bytes], low)
  }

  /** The table an object becomes, its fields in any order. */
  predicate ObjectIn(h: Heap, t: LuaTable, j: J.Json, low: Ref)
    requires j.Object?
    decreases j, 1
  {
    && !t.markedArray && !t.markedObject
    && (forall i :: 0 <= i < |t.entries| ==> HasField(h, t.entries[i], j, low))
    && forall k :: k in j.fields ==> IndexOf(t.entries, String(k)) < |t.entries|
  }

  /** A Lua value holds a JSON value, in tables from some reference on. */
  predicate Holds(h: Heap, v: LuaValue, j: J.Json, low: Ref)
    decreases j, 2
  {
    match j
    case Null => v == LightUserData(true)
    case Bool(on) => v == Boolean(on)
    case Number(n) => IsNumber(n) && v == NumberValue(n)
    case Real(text) => v == Float(text, true)
    case String(text) => v == String(text)
    case Array(items) => v.Table? && v.ref >= low && v.ref in h && ArrayIn(h, h[v.ref], items, low)
    case Object(_) => v.Table? && v.ref >= low && v.ref in h && ObjectIn(h, h[v.ref], j, low)
  }

  /** Every table of the first heap, from some reference on, is the same in the second. */
  predicate Keeps(h: Heap, g: Heap, low: Ref) {
    forall r :: r in h && r >= low ==> r in g && g[r] == h[r]
  }

  lemma {:induction false} HoldsStill(h: Heap, g: Heap, v: LuaValue, j: J.Json, low: Ref, lower: Ref)
    requires Keeps(h, g, low) && lower <= low && Holds(h, v, j, low)
    ensures Holds(g, v, j, lower)
    decreases j
  {
    match j
    case Array(items) =>
      forall i | 0 <= i < |items| ensures Holds(g, h[v.ref].entries[i].value, items[i], lower) {
        HoldsStill(h, g, h[v.ref].entries[i].value, items[i], low, lower);
      }
    case Object(fields) =>
      forall i | 0 <= i < |h[v.ref].entries| ensures HasField(g, h[v.ref].entries[i], j, lower) {
        var e := h[v.ref].entries[i];
        assert HasField(h, e, j, low);
        HoldsStill(h, g, e.value, fields[e.key.bytes], low, lower);
      }
    case _ =>
  }

  /** Every table of the first heap is the same in the second. */
  predicate Extends(h: Heap, g: Heap) {
    forall r :: r in h ==> r in g && g[r] == h[r]
  }

  /** Every table of the first heap but one is the same in the second. */
  predicate OnlyChanges(h: Heap, g: Heap, r: Ref) {
    forall q :: q in h && q != r ==> q in g && g[q] == h[q]
  }

  lemma ChangesOne(h0: Heap, h1: Heap, r: Ref, t: LuaTable)
    requires Extends(h0, h1)
    ensures OnlyChanges(h0, h1[r := t], r)
  {
  }

  /** The table of an array after so many items. */
  predicate ArrayPart(h: Heap, t: LuaTable, items: seq<J.Json>, i: nat, low: Ref) {
    && IsSequence(t) && |t.entries| == i <= |items|
    && forall k :: 0 <= k < i ==> Holds(h, t.entries[k].value, items[k], low)
  }

  lemma ArrayPartStill(h: Heap, g: Heap, t: LuaTable, items: seq<J.Json>, i: nat, low: Ref)
    requires ArrayPart(h, t, items, i, low) && Keeps(h, g, low)
    ensures ArrayPart(g, t, items, i, low)
  {
    forall k | 0 <= k < i ensures Holds(g, t.entries[k].value, items[k], low) {
      HoldsStill(h, g, t.entries[k].value, items[k], low, low);
    }
  }

  lemma ArrayPartGrows(h: Heap, t: LuaTable, items: seq<J.Json>, i: nat, low: Ref, v: LuaValue)
    requires ArrayPart(h, t, items, i, low) && i < |items| && Holds(h, v, items[i], low)
    ensures ArrayPart(h, Appended(t, v), items, i + 1, low)
  {
  }

  lemma ArrayIsComplete(h: Heap, r: Ref, items: seq<J.Json>)
    requires r in h && ArrayPart(h, h[r], items, |items|, r + 1)
    ensures Holds(h, Table(r), J.Array(items), r)
  {
    forall k | 0 <= k < |items| ensures Holds(h, h[r].entries[k].value, items[k], r) {
      HoldsStill(h, h, h[r].entries[k].value, items[k], r + 1, r);
    }
  }

  /** The table of an object after some of its fields. */
  predicate ObjectPart(h: Heap, t: LuaTable, j: J.Json, done: set<Text>, low: Ref)
    requires j.Object?
  {
    && !t.markedArray && !t.markedObject
    && (forall i :: 0 <= i < |t.entries| ==> HasField(h, t.entries[i], j, low) && t.entries[i].key.bytes in done)
    && forall k :: k in done ==> IndexOf(t.entries, String(k)) < |t.entries|
  }

  lemma ObjectPartStill(h: Heap, g: Heap, t: LuaTable, j: J.Json, done: set<Text>, low: Ref)
    requires j.Object? && ObjectPart(h, t, j, done, low) && Keeps(h, g, low)
    ensures ObjectPart(g, t, j, done, low)
  {
    forall i | 0 <= i < |t.entries| ensures HasField(g, t.entries[i], j, low) {
      var e := t.entries[i];
      assert HasField(h, e, j, low);
      HoldsStill(h, g, e.value, j.fields[e.key.bytes], low, low);
    }
  }

  lemma ObjectPartGrows(h: Heap, t: LuaTable, j: J.Json, done: set<Text>, low: Ref, k: nat, key: Text, v: LuaValue)
    requires j.Object? && ObjectPart(h, t, j, done, low) && k <= |t.entries|
    requires j.Object? && key in j.fields && Holds(h, v, j.fields[key], low)
    ensures ObjectPart(h, Inserted(t, k, key, v), j, done + {key}, low)
  {
    var u := Inserted(t, k, key, v);
    assert HasField(h, u.entries[k], j, low);
    forall i | 0 <= i < |u.entries| ensures HasField(h, u.entries[i], j, low) && u.entries[i].key.bytes in done + {key} {
      assert u.entries[i] == if i < k then t.entries[i] else if i == k then Entry(String(key), v) else t.entries[i - 1];
    }
    forall name | name in done + {key} ensures IndexOf(u.entries, String(name)) < |u.entries| {
      var i := IndexOf(t.entries, String(name));
      assert u.entries[k].key == String(key);
      assert i < |t.entries| ==> u.entries[if i < k then i else i + 1] == t.entries[i];
    }
  }

  lemma NameIsNew(h: Heap, t: LuaTable, j: J.Json, done: set<Text>, low: Ref, key: Text)
    requires j.Object? && ObjectPart(h, t, j, done, low) && key !in done
    ensures IndexOf(t.entries, String(key)) == |t.entries|
  {
    forall i | 0 <= i < |t.entries| ensures t.entries[i].key != String(key) {
      assert HasField(h, t.entries[i], j, low);
    }
  }

  lemma ObjectIsComplete(h: Heap, r: Ref, j: J.Json)
    requires j.Object? && r in h && ObjectPart(h, h[r], j, j.fields.Keys, r + 1)
    ensures Holds(h, Table(r), j, r)
  {
    forall i | 0 <= i < |h[r].entries| ensures HasField(h, h[r].entries[i], j, r) {
      var e := h[r].entries[i];
      assert HasField(h, e, j, r + 1);
      HoldsStill(h, h, e.value, j.fields[e.key.bytes], r + 1, r);
    }
  }

  lemma HeldIsNotNil(h: Heap, v: LuaValue, j: J.Json, low: Ref)
    requires Holds(h, v, j, low)
    ensures v != Nil
  {
  }

  /** push_json_value: one value more on the stack, and nothing that was there is touched. */
  method PushJson(s: LuaState, j: J.Json)
    requires s.Valid() && Numbers(j)
    modifies s
    ensures s.Valid() && s.next >= old(s.next)
    ensures s.stack != [] && s.stack[..|s.stack| - 1] == old(s.stack)
    ensures Holds(s.heap, s.stack[|s.stack| - 1], j, old(s.next))
    ensures Extends(old(s.heap), s.heap)
    decreases j, 3
  {
    match j
    case Null => s.Push(LightUserData(true));
    case Bool(on) => s.Push(Boolean(on));
    case Number(n) => s.Push(NumberValue(n));
    case Real(text) => s.Push(Float(text, true));
    case String(text) => s.Push(String(text));
    case Array(items) => PushArray(s, items);
    case Object(_) => PushObject(s, j);
  }

  method PushArray(s: LuaState, items: seq<J.Json>)
    requires s.Valid() && forall i :: 0 <= i < |items| ==> Numbers(items[i])
    modifies s
    ensures s.Valid() && s.next >= old(s.next)
    ensures s.stack == old(s.stack) + [Table(old(s.next))]
    ensures Holds(s.heap, Table(old(s.next)), J.Array(items), old(s.next))
    ensures Extends(old(s.heap), s.heap)
    decreases items, 1
  {
    var r := s.CreateTable();
    for i := 0 to |items|
      invariant s.Valid() && s.next > r && r in s.heap && s.stack == old(s.stack) + [Table(r)]
      invariant Extends(old(s.heap), s.heap)
      invariant ArrayPart(s.heap, s.heap[r], items, i, r + 1)
    {
      PushItem(s, r, items, i);
    }
    ArrayIsComplete(s.heap, r, items);
  }

  method PushItem(s: LuaState, r: Ref, items: seq<J.Json>, i: nat)
    requires s.Valid() && s.next > r && r in s.heap && i < |items| && Numbers(items[i])
    requires ArrayPart(s.heap, s.heap[r], items, i, r + 1)
    modifies s
    ensures s.Valid() && s.next > r && s.stack == old(s.stack)
    ensures OnlyChanges(old(s.heap), s.heap, r)
    ensures r in s.heap && ArrayPart(s.heap, s.heap[r], items, i + 1, r + 1)
    decreases items, 0
  {
    ghost var h0, next := s.heap, s.next;
    PushJson(s, items[i]);
    ghost var h1, v := s.heap, s.stack[|s.stack| - 1];
    HeldIsNotNil(h1, v, items[i], next);
    s.RawSetI(r, i + 1);
    ItemIsIn(h0, h1, s.heap, r, items, i, next, v);
    ChangesOne(h0, h1, r, s.heap[r]);
  }

  /** A value pushed from one heap to the next and set in a table makes that table one item longer. */
  lemma ItemIsIn(h0: Heap, h1: Heap, h2: Heap, r: Ref, items: seq<J.Json>, i: nat, next: Ref, v: LuaValue)
    requires r in h0 && r < next && i < |items| && ArrayPart(h0, h0[r], items, i, r + 1)
    requires Extends(h0, h1) && h2 == h1[r := Appended(h0[r], v)] && Holds(h1, v, items[i], next)
    ensures ArrayPart(h2, h2[r], items, i + 1, r + 1)
  {
    HoldsStill(h1, h2, v, items[i], next, r + 1);
    ArrayPartStill(h0, h2, h0[r], items, i, r + 1);
    ArrayPartGrows(h2, h0[r], items, i, r + 1, v);
  }

  method PushObject(s: LuaState, j: J.Json)
    requires s.Valid() && j.Object? && Numbers(j)
    modifies s
    ensures s.Valid() && s.next >= old(s.next)
    ensures s.stack == old(s.stack) + [Table(old(s.next))]
    ensures Holds(s.heap, Table(old(s.next)), j, old(s.next))
    ensures Extends(old(s.heap), s.heap)
    decreases j, 1
  {
    var r := s.CreateTable();
    var left := j.fields.Keys;
    while left != {}
      invariant left <= j.fields.Keys
      invariant s.Valid() && s.next > r && r in s.heap && s.stack == old(s.stack) + [Table(r)]
      invariant Extends(old(s.heap), s.heap)
      invariant ObjectPart(s.heap, s.heap[r], j, j.fields.Keys - left, r + 1)
      decreases |left|
    {
      var key :| key in left;
      PushField(s, r, j, key, j.fields.Keys - left);
      assert j.fields.Keys - (left - {key}) == (j.fields.Keys - left) + {key};
      left := left - {key};
    }
    assert j.fields.Keys - left == j.fields.Keys;
    ObjectIsComplete(s.heap, r, j);
  }

  method PushField(s: LuaState, r: Ref, j: J.Json, key: Text, ghost done: set<Text>)
    requires s.Valid() && s.next > r && r in s.heap && j.Object? && key in j.fields && key !in done && Numbers(j.fields[key])
    requires ObjectPart(s.heap, s.heap[r], j, done, r + 1)
    modifies s
    ensures s.Valid() && s.next > r && s.stack == old(s.stack)
    ensures OnlyChanges(old(s.heap), s.heap, r)
    ensures r in s.heap && ObjectPart(s.heap, s.heap[r], j, done + {key}, r + 1)
    decreases j, 0
  {
    ghost var h0, next := s.heap, s.next;
    PushJson(s, j.fields[key]);
    ghost var h1, v := s.heap, s.stack[|s.stack| - 1];
    HeldIsNotNil(h1, v, j.fields[key], next);
    NameIsNew(h0, h0[r], j, done, r + 1, key);
    assert s.heap[r] == h0[r];
    var k := s.RawSet(r, key);
    FieldIsIn(h0, h1, s.heap, r, j, done, next, k, key, v);
    ChangesOne(h0, h1, r, s.heap[r]);
  }

  lemma FieldIsIn(h0: Heap, h1: Heap, h2: Heap, r: Ref, j: J.Json, done: set<Text>, next: Ref, k: nat, key: Text, v: LuaValue)
    requires j.Object? && key in j.fields && r in h0 && r < next && ObjectPart(h0, h0[r], j, done, r + 1)
    requires k <= |h0[r].entries| && Extends(h0, h1) && h2 == h1[r := Inserted(h0[r], k, key, v)]
    requires Holds(h1, v, j.fields[key], next)
    ensures ObjectPart(h2, h2[r], j, done + {key}, r + 1)
  {
    HoldsStill(h1, h2, v, j.fields[key], next, r + 1);
    ObjectPartStill(h0, h2, h0[r], j, done, r + 1);
    ObjectPartGrows(h2, h0[r], j, done, r + 1, k, key, v);
  }
}
