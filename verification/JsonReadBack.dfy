/** What push_json_value pushes, lua_value_to_json reads back. */
module JsonReadBack {
  import opened Wrappers
  import opened Bytes
  import opened LuaTables
  import opened LuaStack
  import opened JsonEncoding
  import opened JsonPush
  import opened JsonConverter
  import J = Json
  import R = JsonRoundTrip

  /** A JSON value as it comes back: an empty object as an empty array, and an integer too large for Lua as a string. */
  function Normal(j: J.Json): J.Json
    decreases j, 2
  {
    match j
    case Number(n) => if n <= 0x7FFF_FFFF_FFFF_FFFF then j else J.String(Signed(n))
    case Array(items) => J.Array(NormalItems(items))
    case Object(fields) => if fields == map[] then J.Array([]) else J.Object(NormalFields(j))
    case _ => j
  }

  function NormalItems(items: seq<J.Json>): (js: seq<J.Json>)
    ensures |js| == |items| && forall i :: 0 <= i < |items| ==> js[i] == Normal(items[i])
    decreases items, 0
  {
    seq(|items|, i requires 0 <= i < |items| => Normal(items[i]))
  }

  function NormalFields(j: J.Json): (m: map<Text, J.Json>)
    requires j.Object?
    ensures m.Keys == j.fields.Keys && forall k :: k in j.fields ==> m[k] == Normal(j.fields[k])
    decreases j, 1
  {
    map k | k in j.fields :: Normal(j.fields[k])
  }

  /** No floats, strings in UTF-8, and arrays and objects at most n deep. */
  predicate Fits(j: J.Json, n: nat)
    decreases j, 2
  {
    match j
    case Real(_) => false
    case String(text) => J.Utf8(text)
    case Array(items) => n > 0 && ItemsFit(items, n - 1)
    case Object(_) => n > 0 && FieldsFit(j, n - 1)
    case _ => true
  }

  predicate ItemsFit(items: seq<J.Json>, n: nat)
    decreases items, 0
  {
    forall i :: 0 <= i < |items| ==> Fits(items[i], n)
  }

  predicate FieldsFit(j: J.Json, n: nat)
    requires j.Object?
    decreases j, 1
  {
    forall k :: k in j.fields ==> J.Utf8(k) && Fits(j.fields[k], n)
  }

  lemma ItemsRead(h: Heap, vs: seq<LuaValue>, js: seq<J.Json>, level: nat)
    requires level <= MAX_DEPTH && |vs| == |js|
    requires forall i :: 0 <= i < |vs| ==> Tree(h, DEFAULT, vs[i], level) == Some(js[i])
    ensures ItemsTree(h, DEFAULT, vs, level) == Some(js)
  {
    AllOfSplit(Trees(h, vs, level), js);
    AllTrees(h, vs, level);
  }

  lemma {:induction false} FieldsRead(h: Heap, es: seq<Entry>, m: map<Text, J.Json>, level: nat) returns (r: map<Text, J.Json>)
    requires level <= MAX_DEPTH
    requires forall i :: 0 <= i < |es| ==>
      es[i].key.String? && es[i].key.bytes in m && J.Utf8(es[i].key.bytes)
      && Tree(h, DEFAULT, es[i].value, level) == Some(m[es[i].key.bytes])
    ensures FieldsTree(h, DEFAULT, es, level) == Some(r)
    ensures forall k :: k in r ==> k in m && r[k] == m[k]
    ensures forall i :: 0 <= i < |es| ==> es[i].key.bytes in r
  {
    if es == [] {
      r := map[];
    } else {
      var rest := FieldsRead(h, es[1..], m, level);
      r := map[es[0].key.bytes := m[es[0].key.bytes]] + rest;
      assert forall i :: 0 < i < |es| ==> es[i] == es[1..][i - 1];
    }
  }

  lemma ScalarReadsBack(h: Heap, v: LuaValue, j: J.Json, low: Ref, level: nat)
    requires level <= MAX_DEPTH && !j.Array? && !j.Object? && Holds(h, v, j, low) && Fits(j, MAX_DEPTH - level)
    ensures Tree(h, DEFAULT, v, level) == Some(Normal(j))
  {
    if j.Number? {
      R.SignedIsPlain(j.number);
    }
  }

  /** A held value reads as its normal form. */
  lemma ReadsBack(h: Heap, v: LuaValue, j: J.Json, low: Ref, level: nat)
    requires level <= MAX_DEPTH && Holds(h, v, j, low) && Fits(j, MAX_DEPTH - level)
    ensures Tree(h, DEFAULT, v, level) == Some(Normal(j))
    decreases j, 1
  {
    if j.Array? {
      ItemsReadBack(h, h[v.ref], j.items, low, level + 1);
    } else if j.Object? {
      FieldsReadBack(h, h[v.ref], j, low, level + 1);
    } else {
      ScalarReadsBack(h, v, j, low, level);
    }
  }

  lemma ItemsReadBack(h: Heap, t: LuaTable, items: seq<J.Json>, low: Ref, level: nat)
    requires level <= MAX_DEPTH && ArrayIn(h, t, items, low)
    requires ItemsFit(items, MAX_DEPTH - level)
    ensures TableTree(h, DEFAULT, t, level) == Some(J.Array(NormalItems(items)))
    decreases items
  {
    forall i | 0 <= i < |items|
      ensures t.entries[i].value != Nil && Tree(h, DEFAULT, t.entries[i].value, level) == Some(Normal(items[i]))
    {
      ReadsBack(h, t.entries[i].value, items[i], low, level);
      HeldIsNotNil(h, t.entries[i].value, items[i], low);
    }
    SequenceReadsBack(h, t, NormalItems(items), level);
  }

  lemma FieldsReadBack(h: Heap, t: LuaTable, j: J.Json, low: Ref, level: nat)
    requires level <= MAX_DEPTH && j.Object? && ObjectIn(h, t, j, low) && FieldsFit(j, MAX_DEPTH - level)
    ensures TableTree(h, DEFAULT, t, level) == Some(if NormalFields(j) == map[] then J.Array([]) else J.Object(NormalFields(j)))
    decreases j, 0
  {
    forall i | 0 <= i < |t.entries|
      ensures HasField(h, t.entries[i], j, low)
      ensures Tree(h, DEFAULT, t.entries[i].value, level) == Some(Normal(j.fields[t.entries[i].key.bytes]))
    {
      assert HasField(h, t.entries[i], j, low);
      ReadsBack(h, t.entries[i].value, j.fields[t.entries[i].key.bytes], low, level);
    }
    RecordReadsBack(h, t, NormalFields(j), level);
  }

  lemma SequenceReadsBack(h: Heap, t: LuaTable, js: seq<J.Json>, level: nat)
    requires level <= MAX_DEPTH && IsSequence(t) && |t.entries| == |js|
    requires forall i :: 0 <= i < |js| ==> t.entries[i].value != Nil && Tree(h, DEFAULT, t.entries[i].value, level) == Some(js[i])
    ensures TableTree(h, DEFAULT, t, level) == Some(J.Array(js))
  {
    if js != [] {
      SequenceIsLegal(t);
      AscendingIsDetected(t);
      ItemsRead(h, Slots(t, |js|), js, level);
    }
  }

  lemma RecordReadsBack(h: Heap, t: LuaTable, m: map<Text, J.Json>, level: nat)
    requires level <= MAX_DEPTH && !t.markedArray && !t.markedObject
    requires forall i :: 0 <= i < |t.entries| ==>
      t.entries[i].key.String? && t.entries[i].key.bytes in m && J.Utf8(t.entries[i].key.bytes)
      && Tree(h, DEFAULT, t.entries[i].value, level) == Some(m[t.entries[i].key.bytes])
    requires forall k :: k in m ==> IndexOf(t.entries, String(k)) < |t.entries|
    ensures TableTree(h, DEFAULT, t, level) == Some(if m == map[] then J.Array([]) else J.Object(m))
  {
    if t.entries == [] {
      assert forall k :: k in m ==> IndexOf(t.entries, String(k)) < 0;
      assert m == map[];
    } else {
      assert t.entries[0].key.String? && t.entries[0].key.bytes in m;
      var r := FieldsRead(h, t.entries, m, level);
      AllNamesIn(t.entries, m, r);
    }
  }

  lemma AllNamesIn(es: seq<Entry>, m: map<Text, J.Json>, r: map<Text, J.Json>)
    requires forall k :: k in r ==> k in m && r[k] == m[k]
    requires forall i :: 0 <= i < |es| ==> es[i].key.String? && es[i].key.bytes in r
    requires forall k :: k in m ==> IndexOf(es, String(k)) < |es|
    ensures r == m
  {
    forall k | k in m ensures k in r {
      var i := IndexOf(es, String(k));
      assert es[i].key == String(k);
    }
  }

  /** Pushing and reading back: the normal form returns, the stack gains one value, and the tables there were stay. */
  method PushAndRead(s: LuaState, j: J.Json) returns (back: Option<J.Json>)
    requires s.Valid() && Numbers(j) && Fits(j, 64)
    modifies s
    ensures back == Some(Normal(j))
    ensures s.Valid() && s.stack != [] && s.stack[..|s.stack| - 1] == old(s.stack) && Extends(old(s.heap), s.heap)
  {
    ghost var low := s.next;
    PushJson(s, j);
    var v := s.stack[|s.stack| - 1];
    ReadsBack(s.heap, v, j, low, 0);
    back := ValueToJson(s, v, 0);
  }
}
