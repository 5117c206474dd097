/** What of a value is written, what may be asked of it, and what its text reads as. */
module JsonWritten {
  import opened Wrappers
  import opened Bytes
  import opened LuaTables
  import opened JsonEncoding
  import J = Json

  /** A key that needs no escape, or an integer. */
  predicate CleanKey(key: LuaValue) {
    key.Integer? || (key.String? && PlainText(key.bytes))
  }

  predicate PlainText(s: Text) {
    forall i :: 0 <= i < |s| ==> EscapeOf(s[i]) == 0
  }

  predicate CleanValue(v: LuaValue) {
    !v.Float? && (v.LightUserData? ==> v.isNull)
  }

  /** Neither a string nor an integer. */
  predicate OddKey(key: LuaValue) {
    !key.String? && !key.Integer?
  }

  /** Where keys that are neither strings nor integers are allowed. */
  datatype Odd = Never | Lone | Anywhere

  /** What is asked of the names and strings that are written. */
  datatype Demand = Demand(plain: bool, odd: Odd, utf8: bool, distinct: bool)

  const CLEAN := Demand(true, Never, false, false)
  const TIDY := Demand(true, Anywhere, false, false)

  /** A key that is written without escapes, the text it is written as. */
  function Written(key: LuaValue): Text
    requires !OddKey(key)
  {
    if key.String? then key.bytes else Signed(key.number)
  }

  predicate DistinctNames(es: seq<Entry>) {
    forall i, j :: 0 <= i < j < |es| && !OddKey(es[i].key) && !OddKey(es[j].key) ==> Written(es[i].key) != Written(es[j].key)
  }

  predicate KeyMeets(d: Demand, key: LuaValue, alone: bool) {
    if OddKey(key) then d.odd.Anywhere? || (d.odd.Lone? && alone)
    else (d.plain ==> CleanKey(key)) && (d.utf8 && key.String? ==> J.Utf8(key.bytes))
  }

  predicate NamesMeet(d: Demand, es: seq<Entry>) {
    && (d.distinct ==> DistinctNames(es))
    && forall i :: 0 <= i < |es| ==> KeyMeets(d, es[i].key, |es| == 1)
  }

  /** Whether a table is written as an array. */
  predicate AsSlots(o: Options, t: LuaTable) {
    var (isArray, n) := ArrayShape(t);
    isArray && (o.sparse || FirstNil(Slots(t, n)) == n)
  }

  lemma ObjectOfTable(h: Heap, o: Options, fmt: bool, t: LuaTable, level: nat)
    requires 0 < level <= MAX_DEPTH && TableText(h, o, fmt, t, level).Some? && !AsSlots(o, t)
    ensures TableText(h, o, fmt, t, level) == ObjectText(h, o, fmt, t.entries, level)
  {
  }

  /** A demand on all that is written of a value. */
  predicate Meets(h: Heap, o: Options, d: Demand, v: LuaValue, level: nat)
    requires level <= MAX_DEPTH
    decreases MAX_DEPTH - level, 0
  {
    && CleanValue(v) && (d.utf8 && v.String? ==> J.Utf8(v.bytes))
    && (v.Table? && level < MAX_DEPTH ==> TableMeets(h, o, d, At(h, v.ref), level + 1))
  }

  predicate ItemsMeet(h: Heap, o: Options, d: Demand, vs: seq<LuaValue>, level: nat)
    requires level <= MAX_DEPTH
    decreases MAX_DEPTH - level, 1
  {
    forall i :: 0 <= i < |vs| ==> Meets(h, o, d, vs[i], level)
  }

  predicate FieldsMeet(h: Heap, o: Options, d: Demand, es: seq<Entry>, level: nat)
    requires level <= MAX_DEPTH
    decreases MAX_DEPTH - level, 1
  {
    NamesMeet(d, es) && forall i :: 0 <= i < |es| && !OddKey(es[i].key) ==> Meets(h, o, d, es[i].value, level)
  }

  predicate TableMeets(h: Heap, o: Options, d: Demand, t: LuaTable, level: nat)
    requires level <= MAX_DEPTH
    decreases MAX_DEPTH - level, 2
  {
    if AsSlots(o, t) then ItemsMeet(h, o, d, Slots(t, ArrayShape(t).1), level) else FieldsMeet(h, o, d, t.entries, level)
  }

  lemma LaterFieldsMeet(h: Heap, o: Options, d: Demand, es: seq<Entry>, level: nat)
    requires level <= MAX_DEPTH && es != [] && !d.odd.Lone? && FieldsMeet(h, o, d, es, level)
    ensures FieldsMeet(h, o, d, es[1..], level)
  {
  }

  // What the text is read as

  /** The tree that the text of a value reads as: the value's own, but for tables whose only key leaves no name. */
  function Seen(h: Heap, o: Options, v: LuaValue, level: nat): Option<J.Json>
    requires level <= MAX_DEPTH
    decreases MAX_DEPTH - level, 0, 0
  {
    if v.Table? && level < MAX_DEPTH then SeenTable(h, o, At(h, v.ref), level + 1) else Tree(h, o, v, level)
  }

  function SeenItems(h: Heap, o: Options, vs: seq<LuaValue>, level: nat): Option<seq<J.Json>>
    requires level <= MAX_DEPTH
    decreases MAX_DEPTH - level, 1, |vs|
  {
    if vs == [] then Some([]) else Chain(Seen(h, o, vs[0], level), SeenItems(h, o, vs[1..], level))
  }

  function SeenFields(h: Heap, o: Options, es: seq<Entry>, level: nat): Option<map<Text, J.Json>>
    requires level <= MAX_DEPTH
    decreases MAX_DEPTH - level, 1, |es|
  {
    if es == [] then Some(map[])
    else Merge(Name(o, es[0].key), Seen(h, o, es[0].value, level), SeenFields(h, o, es[1..], level))
  }

  predicate LoneOdd(es: seq<Entry>) {
    |es| == 1 && OddKey(es[0].key)
  }

  function SeenObject(h: Heap, o: Options, es: seq<Entry>, level: nat): Option<J.Json>
    requires level <= MAX_DEPTH
    decreases MAX_DEPTH - level, 2, |es|
  {
    if es == [] && o.emptyAsArray then Some(J.Array([]))
    else if LoneOdd(es) then Some(J.Object(map[]))
    else AsObject(SeenFields(h, o, es, level))
  }

  function SeenTable(h: Heap, o: Options, t: LuaTable, level: nat): Option<J.Json>
    requires level <= MAX_DEPTH
    decreases MAX_DEPTH - level, 3, 0
  {
    if AsSlots(o, t) then AsArray(SeenItems(h, o, Slots(t, ArrayShape(t).1), level)) else SeenObject(h, o, t.entries, level)
  }
}
