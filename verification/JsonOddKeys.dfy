/** Keys that are neither strings nor integers: what the converter and the encoder make of the tables they are in. */
module JsonOddKeys {
  import opened Wrappers
  import opened Bytes
  import opened LuaTables
  import opened JsonEncoding
  import opened JsonWritten
  import opened JsonRoundTrip
  import opened JsonTheorems
  import J = Json

  const ODD := Demand(true, Anywhere, true, false)
  const LONE := Demand(true, Lone, true, false)

  /** Wherever such a key is reached the direct converter refuses the whole value. */
  lemma OddIsRefused(h: Heap, o: Options, d: Demand, v: LuaValue, level: nat)
    requires level <= MAX_DEPTH && Meets(h, o, d, v, level) && !Meets(h, o, d.(odd := Never), v, level)
    ensures Tree(h, o, v, level).None?
    decreases MAX_DEPTH - level, 0
  {
    OddTableIsRefused(h, o, d, At(h, v.ref), level + 1);
  }

  lemma OddTableIsRefused(h: Heap, o: Options, d: Demand, t: LuaTable, level: nat)
    requires level <= MAX_DEPTH && TableMeets(h, o, d, t, level) && !TableMeets(h, o, d.(odd := Never), t, level)
    ensures TableTree(h, o, t, level).None?
    decreases MAX_DEPTH - level, 1
  {
    var never := d.(odd := Never);
    if AsSlots(o, t) {
      var vs := Slots(t, ArrayShape(t).1);
      assert !ItemsMeet(h, o, never, vs, level) && ItemsMeet(h, o, d, vs, level);
      var i :| 0 <= i < |vs| && !Meets(h, o, never, vs[i], level);
      OddIsRefused(h, o, d, vs[i], level);
      ItemsFail(h, o, vs, level, i);
    } else {
      var i := RefusedField(h, o, d, t.entries, level);
      if !OddKey(t.entries[i].key) {
        OddIsRefused(h, o, d, t.entries[i].value, level);
      }
      FieldsFail(h, o, t.entries, level, i);
    }
  }

  lemma RefusedField(h: Heap, o: Options, d: Demand, es: seq<Entry>, level: nat) returns (i: nat)
    requires level <= MAX_DEPTH && FieldsMeet(h, o, d, es, level) && !FieldsMeet(h, o, d.(odd := Never), es, level)
    ensures i < |es| && (OddKey(es[i].key) || !Meets(h, o, d.(odd := Never), es[i].value, level))
    ensures !OddKey(es[i].key) ==> Meets(h, o, d, es[i].value, level)
  {
    var never := d.(odd := Never);
    assert forall k :: 0 <= k < |es| ==> KeyMeets(d, es[k].key, |es| == 1);
    if k :| 0 <= k < |es| && OddKey(es[k].key) {
      i := k;
    } else {
      assert NamesMeet(never, es);
      i :| 0 <= i < |es| && !Meets(h, o, never, es[i].value, level);
    }
  }

  /** The text reads as a value exactly where each such key is alone in its table. */
  lemma SeenExactly(h: Heap, o: Options, fmt: bool, v: LuaValue, level: nat)
    requires level <= MAX_DEPTH && Meets(h, o, ODD, v, level) && ValueText(h, o, fmt, v, level).Some?
    ensures Seen(h, o, v, level).Some? <==> Meets(h, o, LONE, v, level)
    decreases MAX_DEPTH - level, 0, 0
  {
    if v.Table? {
      SeenTableExactly(h, o, fmt, At(h, v.ref), level + 1);
    }
  }

  lemma SeenItemsExactly(h: Heap, o: Options, fmt: bool, vs: seq<LuaValue>, level: nat)
    requires level <= MAX_DEPTH && ItemsMeet(h, o, ODD, vs, level) && ItemsText(h, o, fmt, vs, level).Some?
    ensures SeenItems(h, o, vs, level).Some? <==> ItemsMeet(h, o, LONE, vs, level)
    decreases MAX_DEPTH - level, 1, |vs|
  {
    if vs != [] {
      SeenExactly(h, o, fmt, vs[0], level);
      SeenItemsExactly(h, o, fmt, vs[1..], level);
      assert forall i :: 0 < i < |vs| ==> vs[i] == vs[1..][i - 1];
    }
  }

  /** All keys are names, and all values as asked. */
  predicate NamesOnly(h: Heap, o: Options, es: seq<Entry>, level: nat)
    requires level <= MAX_DEPTH
  {
    forall i :: 0 <= i < |es| ==> !OddKey(es[i].key) && Meets(h, o, LONE, es[i].value, level)
  }

  lemma SeenFieldsExactly(h: Heap, o: Options, fmt: bool, es: seq<Entry>, level: nat)
    requires level <= MAX_DEPTH && FieldsMeet(h, o, ODD, es, level) && FieldsText(h, o, fmt, es, level).Some?
    ensures SeenFields(h, o, es, level).Some? <==> NamesOnly(h, o, es, level)
    decreases MAX_DEPTH - level, 1, |es|
  {
    if es != [] {
      assert KeyMeets(ODD, es[0].key, |es| == 1);
      if !OddKey(es[0].key) {
        SeenExactly(h, o, fmt, es[0].value, level);
        SignedName(o, es[0].key);
      }
      LaterFieldsMeet(h, o, ODD, es, level);
      SeenFieldsExactly(h, o, fmt, es[1..], level);
      assert forall i :: 0 < i < |es| ==> es[i] == es[1..][i - 1];
    }
  }

  lemma SignedName(o: Options, key: LuaValue)
    ensures key.Integer? && o.numberKey ==> Name(o, key).Some?
  {
  }

  lemma SeenTableExactly(h: Heap, o: Options, fmt: bool, t: LuaTable, level: nat)
    requires 0 < level <= MAX_DEPTH && TableMeets(h, o, ODD, t, level) && TableText(h, o, fmt, t, level).Some?
    ensures SeenTable(h, o, t, level).Some? <==> TableMeets(h, o, LONE, t, level)
    decreases MAX_DEPTH - level, 2, 0
  {
    if AsSlots(o, t) {
      var vs := Slots(t, ArrayShape(t).1);
      assert ArrayText(h, o, fmt, vs, level).Some?;
      SeenItemsExactly(h, o, fmt, vs, level);
    } else {
      ObjectOfTable(h, o, fmt, t, level);
      SeenObjectExactly(h, o, fmt, t.entries, level);
    }
  }

  lemma SeenObjectExactly(h: Heap, o: Options, fmt: bool, es: seq<Entry>, level: nat)
    requires 0 < level <= MAX_DEPTH && FieldsMeet(h, o, ODD, es, level) && ObjectText(h, o, fmt, es, level).Some?
    ensures SeenObject(h, o, es, level).Some? <==> FieldsMeet(h, o, LONE, es, level)
    decreases MAX_DEPTH - level, 1, |es| + 1
  {
    assert forall i :: 0 <= i < |es| ==> KeyMeets(ODD, es[i].key, |es| == 1);
    if es != [] && !LoneOdd(es) {
      SeenFieldsExactly(h, o, fmt, es, level);
      assert NamesOnly(h, o, es, level) ==> NamesMeet(LONE, es);
      assert NamesMeet(LONE, es) ==> forall i :: 0 <= i < |es| ==> !OddKey(es[i].key) by {
        assert NamesMeet(LONE, es) ==> forall i :: 0 <= i < |es| ==> KeyMeets(LONE, es[i].key, |es| == 1);
      }
    }
  }

  /**
   * Keys that are neither strings nor integers, anywhere in a value that has text and is otherwise in order: the
   * direct converter refuses the value as soon as it reaches one. Its text is JSON exactly when each of them is alone
   * in its table, and then those tables read as empty objects.
   */
  lemma OddKeysExactly(h: Heap, o: Options, fmt: bool, v: LuaValue)
    requires Meets(h, o, ODD, v, 0) && ValueText(h, o, fmt, v, 0).Some?
    ensures !Meets(h, o, ODD.(odd := Never), v, 0) ==> Tree(h, o, v, 0).None?
    ensures J.Parse(ValueText(h, o, fmt, v, 0).value) == Seen(h, o, v, 0)
    ensures J.Parse(ValueText(h, o, fmt, v, 0).value).Some? <==> Meets(h, o, LONE, v, 0)
  {
    if !Meets(h, o, ODD.(odd := Never), v, 0) {
      OddIsRefused(h, o, ODD, v, 0);
    }
    MeetsLess(h, o, ODD, TIDY, v, 0);
    TextReads(h, o, fmt, v);
    SeenExactly(h, o, fmt, v, 0);
  }

  /** The smallest such table: encoded and parsed it is an empty object, and the direct converter refuses it. */
  lemma OddKeysAreDropped(h: Heap)
    requires h == map[0 := LuaTable([Entry(Boolean(true), Boolean(true))], 0, false, false)]
    ensures Legal(h[0]) && EncodedAndParsed(h, Table(0)) == Some(J.Object(map[])) && Tree(h, DEFAULT, Table(0), 0).None?
  {
    assert OddKey(h[0].entries[0].key);
    HollowObjectParses(h, DEFAULT, false, h[0].entries, 1, []);
    var text := ObjectText(h, DEFAULT, false, h[0].entries, 1).value;
    assert text + [] == text;
    FieldsFail(h, DEFAULT, h[0].entries, 1, 0);
  }
}
