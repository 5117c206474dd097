/** What encoding and converting come to: round trips, agreement, and how deep tables may nest. */
module JsonTheorems {
  import opened Wrappers
  import opened Bytes
  import opened LuaTables
  import opened JsonEncoding
  import opened JsonWritten
  import opened JsonRoundTrip
  import J = Json

  // A value that cannot be encoded has no tree either

  lemma NoTextNoTree(h: Heap, o: Options, fmt: bool, v: LuaValue, level: nat)
    requires level <= MAX_DEPTH
    requires ValueText(h, o, fmt, v, level).None?
    ensures Tree(h, o, v, level).None?
    decreases MAX_DEPTH - level, 0, 0
  {
    if v.Table? && level < MAX_DEPTH {
      NoTableNoTree(h, o, fmt, At(h, v.ref), level + 1);
    }
  }

  lemma NoItemsNoTree(h: Heap, o: Options, fmt: bool, vs: seq<LuaValue>, level: nat) returns (i: nat)
    requires level <= MAX_DEPTH
    requires ItemsText(h, o, fmt, vs, level).None?
    ensures i < |vs| && Tree(h, o, vs[i], level).None?
    decreases MAX_DEPTH - level, 1, |vs|
  {
    if ItemText(h, o, fmt, vs[0], level).None? {
      NoTextNoTree(h, o, fmt, vs[0], level);
      i := 0;
    } else {
      var k := NoItemsNoTree(h, o, fmt, vs[1..], level);
      i := k + 1;
    }
  }

  lemma {:induction false} ItemsFail(h: Heap, o: Options, vs: seq<LuaValue>, level: nat, i: nat)
    requires level <= MAX_DEPTH && i < |vs| && Tree(h, o, vs[i], level).None?
    ensures ItemsTree(h, o, vs, level).None?
  {
    if i > 0 {
      ItemsFail(h, o, vs[1..], level, i - 1);
    }
  }

  lemma {:induction false} FieldsFail(h: Heap, o: Options, es: seq<Entry>, level: nat, i: nat)
    requires level <= MAX_DEPTH && i < |es|
    requires Name(o, es[i].key).None? || Tree(h, o, es[i].value, level).None?
    ensures FieldsTree(h, o, es, level).None?
  {
    if i > 0 {
      FieldsFail(h, o, es[1..], level, i - 1);
    }
  }

  lemma NoFieldsNoTree(h: Heap, o: Options, fmt: bool, es: seq<Entry>, level: nat)
    requires level <= MAX_DEPTH
    requires FieldsText(h, o, fmt, es, level).None?
    ensures FieldsTree(h, o, es, level).None?
    decreases MAX_DEPTH - level, 1, |es|
  {
    if FieldText(h, o, fmt, es[0], level).Some? {
      NoFieldsNoTree(h, o, fmt, es[1..], level);
    } else if Name(o, es[0].key).Some? {
      NoTextNoTree(h, o, fmt, es[0].value, level);
    }
  }

  lemma NoTableNoTree(h: Heap, o: Options, fmt: bool, t: LuaTable, level: nat)
    requires 0 < level <= MAX_DEPTH
    requires TableText(h, o, fmt, t, level).None?
    ensures TableTree(h, o, t, level).None?
    decreases MAX_DEPTH - level, 4, 0
  {
    var (isArray, n) := ArrayShape(t);
    if isArray {
      NoSlotsNoTree(h, o, fmt, t, n, level);
    } else {
      NoFieldsNoTree(h, o, fmt, t.entries, level);
    }
  }

  lemma NoSlotsNoTree(h: Heap, o: Options, fmt: bool, t: LuaTable, n: nat, level: nat)
    requires 0 < level <= MAX_DEPTH && ArrayShape(t) == (true, n)
    requires SlotsText(h, o, fmt, t.entries, Slots(t, n), level).None?
    ensures TableTree(h, o, t, level).None?
    decreases MAX_DEPTH - level, 3, 0
  {
    var vs := Slots(t, n);
    if o.sparse || FirstNil(vs) == n {
      var i := NoItemsNoTree(h, o, fmt, vs, level);
      ItemsFail(h, o, vs, level, i);
    } else if ItemsText(h, o, fmt, vs[..FirstNil(vs)], level).None? {
      var i := NoItemsNoTree(h, o, fmt, vs[..FirstNil(vs)], level);
      var k := IndexOf(t.entries, Integer(i + 1));
      assert vs[i] == Get(t, i + 1) && vs[i] != Nil;
      FieldsFail(h, o, t.entries, level, k);
    } else {
      NoFieldsNoTree(h, o, fmt, t.entries, level);
    }
  }

  // What is asked

  /** One demand asks at least as much as another. */
  predicate AsksMore(d: Demand, e: Demand) {
    && (e.plain ==> d.plain) && (e.utf8 ==> d.utf8) && (e.distinct ==> d.distinct)
    && (e.odd.Anywhere? || d.odd.Never? || d.odd == e.odd)
  }

  lemma MeetsLess(h: Heap, o: Options, d: Demand, e: Demand, v: LuaValue, level: nat)
    requires level <= MAX_DEPTH && AsksMore(d, e) && Meets(h, o, d, v, level)
    ensures Meets(h, o, e, v, level)
    decreases MAX_DEPTH - level, 0
  {
    if v.Table? && level < MAX_DEPTH {
      TableMeetsLess(h, o, d, e, At(h, v.ref), level + 1);
    }
  }

  lemma TableMeetsLess(h: Heap, o: Options, d: Demand, e: Demand, t: LuaTable, level: nat)
    requires level <= MAX_DEPTH && AsksMore(d, e) && TableMeets(h, o, d, t, level)
    ensures TableMeets(h, o, e, t, level)
    decreases MAX_DEPTH - level, 1
  {
    if AsSlots(o, t) {
      var vs := Slots(t, ArrayShape(t).1);
      assert ItemsMeet(h, o, d, vs, level);
      forall i | 0 <= i < |vs| ensures Meets(h, o, e, vs[i], level) {
        MeetsLess(h, o, d, e, vs[i], level);
      }
    } else {
      var es := t.entries;
      assert FieldsMeet(h, o, d, es, level);
      NamesMeetLess(d, e, es);
      forall i | 0 <= i < |es| && !OddKey(es[i].key) ensures Meets(h, o, e, es[i].value, level) {
        MeetsLess(h, o, d, e, es[i].value, level);
      }
    }
  }

  lemma NamesMeetLess(d: Demand, e: Demand, es: seq<Entry>)
    requires AsksMore(d, e) && NamesMeet(d, es)
    ensures NamesMeet(e, es)
  {
    assert forall i :: 0 <= i < |es| ==> KeyMeets(d, es[i].key, |es| == 1);
  }

  // Without keys that are no names the text reads as the value's own tree

  lemma SeenIsTree(h: Heap, o: Options, d: Demand, v: LuaValue, level: nat)
    requires level <= MAX_DEPTH && d.odd.Never? && Meets(h, o, d, v, level)
    ensures Seen(h, o, v, level) == Tree(h, o, v, level)
    decreases MAX_DEPTH - level, 0, 0
  {
    if v.Table? && level < MAX_DEPTH {
      SeenTableIsTree(h, o, d, At(h, v.ref), level + 1);
    }
  }

  lemma SeenTableIsTree(h: Heap, o: Options, d: Demand, t: LuaTable, level: nat)
    requires level <= MAX_DEPTH && d.odd.Never? && TableMeets(h, o, d, t, level)
    ensures SeenTable(h, o, t, level) == TableTree(h, o, t, level)
    decreases MAX_DEPTH - level, 2, 0
  {
    if AsSlots(o, t) {
      SeenItemsAreTrees(h, o, d, Slots(t, ArrayShape(t).1), level);
    } else {
      SeenFieldsAreTrees(h, o, d, t.entries, level);
      assert t.entries != [] ==> KeyMeets(d, t.entries[0].key, |t.entries| == 1);
    }
  }

  lemma SeenItemsAreTrees(h: Heap, o: Options, d: Demand, vs: seq<LuaValue>, level: nat)
    requires level <= MAX_DEPTH && d.odd.Never? && ItemsMeet(h, o, d, vs, level)
    ensures SeenItems(h, o, vs, level) == ItemsTree(h, o, vs, level)
    decreases MAX_DEPTH - level, 1, |vs|
  {
    if vs != [] {
      SeenIsTree(h, o, d, vs[0], level);
      SeenItemsAreTrees(h, o, d, vs[1..], level);
    }
  }

  lemma SeenFieldsAreTrees(h: Heap, o: Options, d: Demand, es: seq<Entry>, level: nat)
    requires level <= MAX_DEPTH && d.odd.Never? && FieldsMeet(h, o, d, es, level)
    ensures SeenFields(h, o, es, level) == FieldsTree(h, o, es, level)
    decreases MAX_DEPTH - level, 1, |es|
  {
    if es != [] {
      assert KeyMeets(d, es[0].key, |es| == 1);
      SeenIsTree(h, o, d, es[0].value, level);
      LaterFieldsMeet(h, o, d, es, level);
      SeenFieldsAreTrees(h, o, d, es[1..], level);
    }
  }

  // The theorems

  /** Whatever keys it has that are no names, the text of a value reads as specified by Seen. */
  lemma TextReads(h: Heap, o: Options, fmt: bool, v: LuaValue)
    requires Meets(h, o, TIDY, v, 0) && ValueText(h, o, fmt, v, 0).Some?
    ensures J.Parse(ValueText(h, o, fmt, v, 0).value) == Seen(h, o, v, 0)
  {
    var t := ValueText(h, o, fmt, v, 0).value;
    ValueParses(h, o, fmt, v, 0, []);
    assert t + [] == t;
  }

  /** Parsing the text of a value uses all of it and gives the value's tree; there is no text only where there is no tree. */
  lemma EncodeParses(h: Heap, o: Options, fmt: bool, v: LuaValue)
    requires Meets(h, o, CLEAN, v, 0)
    ensures var t := ValueText(h, o, fmt, v, 0); Tree(h, o, v, 0) == if t.None? then None else J.Parse(t.value)
  {
    if ValueText(h, o, fmt, v, 0).None? {
      NoTextNoTree(h, o, fmt, v, 0);
    } else {
      MeetsLess(h, o, CLEAN, TIDY, v, 0);
      TextReads(h, o, fmt, v);
      SeenIsTree(h, o, CLEAN, v, 0);
    }
  }

  /** Every value, clean or not, has a pretty text if and only if it has a compact one. */
  lemma ValueLayouts(h: Heap, o: Options, v: LuaValue, level: nat)
    requires level <= MAX_DEPTH
    ensures ValueText(h, o, true, v, level).Some? <==> ValueText(h, o, false, v, level).Some?
    decreases MAX_DEPTH - level, 0, 0
  {
    if v.Table? && level < MAX_DEPTH {
      TableLayouts(h, o, At(h, v.ref), level + 1);
    }
  }

  lemma ItemsLayouts(h: Heap, o: Options, vs: seq<LuaValue>, level: nat)
    requires level <= MAX_DEPTH
    ensures ItemsText(h, o, true, vs, level).Some? <==> ItemsText(h, o, false, vs, level).Some?
    decreases MAX_DEPTH - level, 1, |vs|
  {
    if vs != [] {
      ValueLayouts(h, o, vs[0], level);
      ItemsLayouts(h, o, vs[1..], level);
    }
  }

  lemma FieldsLayouts(h: Heap, o: Options, es: seq<Entry>, level: nat)
    requires level <= MAX_DEPTH
    ensures FieldsText(h, o, true, es, level).Some? <==> FieldsText(h, o, false, es, level).Some?
    decreases MAX_DEPTH - level, 1, |es|
  {
    if es != [] {
      ValueLayouts(h, o, es[0].value, level);
      assert FieldText(h, o, true, es[0], level).Some? <==> FieldText(h, o, false, es[0], level).Some?;
      FieldsLayouts(h, o, es[1..], level);
    }
  }

  lemma TableLayouts(h: Heap, o: Options, t: LuaTable, level: nat)
    requires 0 < level <= MAX_DEPTH
    ensures TableText(h, o, true, t, level).Some? <==> TableText(h, o, false, t, level).Some?
    decreases MAX_DEPTH - level, 2, 0
  {
    var vs := Slots(t, ArrayShape(t).1);
    FieldsLayouts(h, o, t.entries, level);
    ItemsLayouts(h, o, vs, level);
    ItemsLayouts(h, o, vs[..FirstNil(vs)], level);
    assert ObjectText(h, o, true, t.entries, level).Some? <==> ObjectText(h, o, false, t.entries, level).Some?;
    assert SlotsText(h, o, true, t.entries, vs, level).Some? <==> SlotsText(h, o, false, t.entries, vs, level).Some?;
  }

  /** There is a pretty text exactly when there is a compact one, and both parse to the same tree. */
  lemma PrettyIsCompact(h: Heap, o: Options, v: LuaValue)
    requires Meets(h, o, CLEAN, v, 0)
    ensures var (pretty, compact) := (ValueText(h, o, true, v, 0), ValueText(h, o, false, v, 0));
      (pretty.Some? <==> compact.Some?) && (pretty.Some? ==> J.Parse(pretty.value) == J.Parse(compact.value))
  {
    ValueLayouts(h, o, v, 0);
    EncodeParses(h, o, true, v);
    EncodeParses(h, o, false, v);
  }

  /** The direct converter, which computes Tree with the default options, agrees with encoding and parsing. */
  lemma DirectIsEncodedAndParsed(h: Heap, v: LuaValue)
    requires Meets(h, DEFAULT, CLEAN, v, 0)
    ensures Tree(h, DEFAULT, v, 0) == EncodedAndParsed(h, v)
  {
    EncodeParses(h, DEFAULT, false, v);
  }

  // How deep tables may nest

  /** The values a conversion visits inside a table. */
  function Kids(o: Options, t: LuaTable): seq<LuaValue> {
    var (isArray, n) := ArrayShape(t);
    if isArray && (o.sparse || FirstNil(Slots(t, n)) == n) then Slots(t, n) else EntryValues(t.entries)
  }

  function EntryValues(es: seq<Entry>): (vs: seq<LuaValue>)
    ensures |vs| == |es|
    ensures forall i :: 0 <= i < |es| ==> vs[i] == es[i].value
  {
    seq(|es|, i requires 0 <= i < |es| => es[i].value)
  }

  /** At most n tables are inside one another, this one counted. */
  predicate Nests(h: Heap, o: Options, v: LuaValue, n: nat)
    decreases n
  {
    v.Table? ==> n > 0 && forall i :: 0 <= i < |Kids(o, At(h, v.ref))| ==> Nests(h, o, Kids(o, At(h, v.ref))[i], n - 1)
  }

  /** What JSON has a form for, apart from nesting. */
  predicate Plain(v: LuaValue) {
    match v
    case Float(_, finite) => finite
    case String(s) => J.Utf8(s)
    case LightUserData(isNull) => isNull
    case Other => false
    case _ => true
  }

  predicate PlainHeap(h: Heap, o: Options) {
    forall r, i :: r in h && 0 <= i < |h[r].entries| ==> Plain(h[r].entries[i].value) && Name(o, h[r].entries[i].key).Some?
  }

  lemma KidsArePlain(h: Heap, o: Options, r: Ref, i: nat)
    requires PlainHeap(h, o) && i < |Kids(o, At(h, r))|
    ensures Plain(Kids(o, At(h, r))[i])
  {
  }

  /** Where nothing else is in the way, a value converts exactly when no more tables nest than are left to 64. */
  lemma ConvertsExactlyUpTo64(h: Heap, o: Options, v: LuaValue, level: nat)
    requires PlainHeap(h, o) && Plain(v) && level <= MAX_DEPTH
    ensures Tree(h, o, v, level).Some? <==> Nests(h, o, v, MAX_DEPTH - level)
    decreases MAX_DEPTH - level, 0
  {
    if v.Table? && level < MAX_DEPTH {
      var t := At(h, v.ref);
      var kids := Kids(o, t);
      forall i | 0 <= i < |kids|
        ensures Tree(h, o, kids[i], level + 1).Some? <==> Nests(h, o, kids[i], MAX_DEPTH - (level + 1))
      {
        KidsArePlain(h, o, v.ref, i);
        ConvertsExactlyUpTo64(h, o, kids[i], level + 1);
      }
      TableConverts(h, o, v.ref, level + 1);
    }
  }

  lemma TableConverts(h: Heap, o: Options, r: Ref, level: nat)
    requires PlainHeap(h, o) && level <= MAX_DEPTH
    ensures TableTree(h, o, At(h, r), level).Some?
      <==> forall i :: 0 <= i < |Kids(o, At(h, r))| ==> Tree(h, o, Kids(o, At(h, r))[i], level).Some?
  {
    var t := At(h, r);
    var (isArray, n) := ArrayShape(t);
    if isArray && (o.sparse || FirstNil(Slots(t, n)) == n) {
      ItemsConvert(h, o, Slots(t, n), level);
      assert Kids(o, t) == Slots(t, n);
    } else {
      FieldsConvert(h, o, t.entries, level);
      assert forall i :: 0 <= i < |t.entries| ==> Kids(o, t)[i] == t.entries[i].value;
    }
  }

  lemma {:induction false} ItemsConvert(h: Heap, o: Options, vs: seq<LuaValue>, level: nat)
    requires level <= MAX_DEPTH
    ensures ItemsTree(h, o, vs, level).Some? <==> forall i :: 0 <= i < |vs| ==> Tree(h, o, vs[i], level).Some?
  {
    if vs != [] {
      ItemsConvert(h, o, vs[1..], level);
      assert forall i :: 0 < i < |vs| ==> vs[i] == vs[1..][i - 1];
    }
  }

  lemma {:induction false} FieldsConvert(h: Heap, o: Options, es: seq<Entry>, level: nat)
    requires level <= MAX_DEPTH
    requires forall i :: 0 <= i < |es| ==> Name(o, es[i].key).Some?
    ensures FieldsTree(h, o, es, level).Some? <==> forall i :: 0 <= i < |es| ==> Tree(h, o, es[i].value, level).Some?
  {
    if es != [] {
      FieldsConvert(h, o, es[1..], level);
      assert forall i :: 0 < i < |es| ==> es[i] == es[1..][i - 1];
    }
  }

  /** The encoder's limit is the same one: where nothing else is in the way, there is text exactly for what nests no deeper. */
  lemma EncodesExactlyUpTo64(h: Heap, o: Options, fmt: bool, v: LuaValue, level: nat)
    requires PlainHeap(h, o) && Plain(v) && level <= MAX_DEPTH
    ensures ValueText(h, o, fmt, v, level).Some? <==> Nests(h, o, v, MAX_DEPTH - level)
    decreases MAX_DEPTH - level, 2
  {
    if v.Table? {
      assert v == Table(v.ref);
      NestedTableEncodes(h, o, fmt, v.ref, level);
    } else {
      ScalarEncodes(h, o, fmt, v, level);
    }
  }

  lemma ScalarEncodes(h: Heap, o: Options, fmt: bool, v: LuaValue, level: nat)
    requires Plain(v) && !v.Table? && level <= MAX_DEPTH
    ensures ValueText(h, o, fmt, v, level).Some?
  {
  }

  lemma NestedTableEncodes(h: Heap, o: Options, fmt: bool, r: Ref, level: nat)
    requires PlainHeap(h, o) && level <= MAX_DEPTH
    ensures ValueText(h, o, fmt, Table(r), level).Some? <==> Nests(h, o, Table(r), MAX_DEPTH - level)
    decreases MAX_DEPTH - level, 1
  {
    TableTextIs(h, o, fmt, r, level);
    if level < MAX_DEPTH {
      TableNests(h, o, fmt, r, level + 1);
    } else {
      NestsNowhere(h, o, r);
    }
  }

  lemma TableTextIs(h: Heap, o: Options, fmt: bool, r: Ref, level: nat)
    requires level <= MAX_DEPTH
    ensures ValueText(h, o, fmt, Table(r), level) == if level == MAX_DEPTH then None else TableText(h, o, fmt, At(h, r), level + 1)
  {
  }

  lemma NestsNowhere(h: Heap, o: Options, r: Ref)
    ensures !Nests(h, o, Table(r), 0)
  {
  }

  predicate AllNest(h: Heap, o: Options, vs: seq<LuaValue>, n: nat) {
    forall i :: 0 <= i < |vs| ==> Nests(h, o, vs[i], n)
  }

  lemma NestsInside(h: Heap, o: Options, r: Ref, n: nat)
    ensures Nests(h, o, Table(r), n + 1) <==> AllNest(h, o, Kids(o, At(h, r)), n)
  {
  }

  lemma TableNests(h: Heap, o: Options, fmt: bool, r: Ref, level: nat)
    requires PlainHeap(h, o) && 0 < level <= MAX_DEPTH
    ensures TableText(h, o, fmt, At(h, r), level).Some? <==> Nests(h, o, Table(r), MAX_DEPTH - level + 1)
    decreases MAX_DEPTH - level, 4
  {
    KidsEncode(h, o, fmt, r, level);
    TableEncodes(h, o, fmt, r, level);
    NestsInside(h, o, r, MAX_DEPTH - level);
  }

  lemma KidsEncode(h: Heap, o: Options, fmt: bool, r: Ref, level: nat)
    requires PlainHeap(h, o) && level <= MAX_DEPTH
    ensures forall i :: 0 <= i < |Kids(o, At(h, r))| ==>
      (ValueText(h, o, fmt, Kids(o, At(h, r))[i], level).Some? <==> Nests(h, o, Kids(o, At(h, r))[i], MAX_DEPTH - level))
    decreases MAX_DEPTH - level, 3
  {
    forall i | 0 <= i < |Kids(o, At(h, r))|
      ensures ValueText(h, o, fmt, Kids(o, At(h, r))[i], level).Some? <==> Nests(h, o, Kids(o, At(h, r))[i], MAX_DEPTH - level)
    {
      KidsArePlain(h, o, r, i);
      EncodesExactlyUpTo64(h, o, fmt, Kids(o, At(h, r))[i], level);
    }
  }

  lemma TableEncodes(h: Heap, o: Options, fmt: bool, r: Ref, level: nat)
    requires PlainHeap(h, o) && 0 < level <= MAX_DEPTH
    ensures TableText(h, o, fmt, At(h, r), level).Some?
      <==> forall i :: 0 <= i < |Kids(o, At(h, r))| ==> ValueText(h, o, fmt, Kids(o, At(h, r))[i], level).Some?
  {
    var t := At(h, r);
    var (isArray, n) := ArrayShape(t);
    FieldsEncode(h, o, fmt, t.entries, level);
    if isArray {
      SlotsEncode(h, o, fmt, t, n, level);
    } else {
      assert forall i :: 0 <= i < |t.entries| ==> Kids(o, t)[i] == t.entries[i].value;
    }
  }

  lemma SlotsEncode(h: Heap, o: Options, fmt: bool, t: LuaTable, n: nat, level: nat)
    requires 0 < level <= MAX_DEPTH && ArrayShape(t) == (true, n)
    requires ObjectText(h, o, fmt, t.entries, level).Some?
      <==> forall i :: 0 <= i < |t.entries| ==> ValueText(h, o, fmt, t.entries[i].value, level).Some?
    ensures SlotsText(h, o, fmt, t.entries, Slots(t, n), level).Some?
      <==> forall i :: 0 <= i < |Kids(o, t)| ==> ValueText(h, o, fmt, Kids(o, t)[i], level).Some?
  {
    var vs := Slots(t, n);
    if o.sparse || FirstNil(vs) == n {
      ItemsEncode(h, o, fmt, vs, level);
      assert Kids(o, t) == vs;
    } else {
      var items := vs[..FirstNil(vs)];
      ItemsEncode(h, o, fmt, items, level);
      assert forall i :: 0 <= i < |t.entries| ==> Kids(o, t)[i] == t.entries[i].value;
      forall i | 0 <= i < |items| ensures exists k :: 0 <= k < |t.entries| && t.entries[k].value == items[i] {
        var k := IndexOf(t.entries, Integer(i + 1));
        assert vs[i] == Get(t, i + 1) && vs[i] != Nil;
        assert t.entries[k].value == items[i];
      }
    }
  }

  lemma {:induction false} ItemsEncode(h: Heap, o: Options, fmt: bool, vs: seq<LuaValue>, level: nat)
    requires level <= MAX_DEPTH
    ensures ItemsText(h, o, fmt, vs, level).Some? <==> forall i :: 0 <= i < |vs| ==> ValueText(h, o, fmt, vs[i], level).Some?
  {
    if vs != [] {
      ItemsEncode(h, o, fmt, vs[1..], level);
      assert forall i :: 0 < i < |vs| ==> vs[i] == vs[1..][i - 1];
    }
  }

  lemma {:induction false} FieldsTextEncode(h: Heap, o: Options, fmt: bool, es: seq<Entry>, level: nat)
    requires level <= MAX_DEPTH
    requires forall i :: 0 <= i < |es| ==> Name(o, es[i].key).Some?
    ensures FieldsText(h, o, fmt, es, level).Some? <==> forall i :: 0 <= i < |es| ==> ValueText(h, o, fmt, es[i].value, level).Some?
  {
    if es != [] {
      FieldsTextEncode(h, o, fmt, es[1..], level);
      assert forall i :: 0 < i < |es| ==> es[i] == es[1..][i - 1];
    }
  }

  lemma FieldsEncode(h: Heap, o: Options, fmt: bool, es: seq<Entry>, level: nat)
    requires 0 < level <= MAX_DEPTH
    requires forall i :: 0 <= i < |es| ==> Name(o, es[i].key).Some?
    ensures ObjectText(h, o, fmt, es, level).Some? <==> forall i :: 0 <= i < |es| ==> ValueText(h, o, fmt, es[i].value, level).Some?
  {
    FieldsTextEncode(h, o, fmt, es, level);
  }

  /** Tables that each lead on to one of their number nest without end, so none of them converts: cycles are refused. */
  lemma {:induction false} CyclesNeverNest(h: Heap, o: Options, cycle: set<Ref>, r: Ref, n: nat)
    requires r in cycle
    requires forall s {:trigger LeadsOn(h, o, cycle, s)} :: s in cycle ==> LeadsOn(h, o, cycle, s)
    ensures !Nests(h, o, Table(r), n)
    decreases n
  {
    if n > 0 {
      assert LeadsOn(h, o, cycle, r);
      var i, s := NextOnCycle(h, o, cycle, r);
      CyclesNeverNest(h, o, cycle, s, n - 1);
    }
  }

  /** So the direct converter refuses every value that leads into a cycle, whatever else the tables hold. */
  lemma {:induction false} CyclesAreRefused(h: Heap, o: Options, cycle: set<Ref>, r: Ref, level: nat)
    requires r in cycle && level <= MAX_DEPTH
    requires forall s {:trigger LeadsOn(h, o, cycle, s)} :: s in cycle ==> LeadsOn(h, o, cycle, s)
    ensures Tree(h, o, Table(r), level).None?
    decreases MAX_DEPTH - level
  {
    if level < MAX_DEPTH {
      assert LeadsOn(h, o, cycle, r);
      var i, s := NextOnCycle(h, o, cycle, r);
      CyclesAreRefused(h, o, cycle, s, level + 1);
      KidFails(h, o, At(h, r), level + 1, i);
      TableFails(h, o, r, level);
    }
  }

  lemma NextOnCycle(h: Heap, o: Options, cycle: set<Ref>, r: Ref) returns (i: nat, s: Ref)
    requires LeadsOn(h, o, cycle, r)
    ensures i < |Kids(o, At(h, r))| && Kids(o, At(h, r))[i] == Table(s) && s in cycle
  {
    var kids := Kids(o, At(h, r));
    i :| 0 <= i < |kids| && kids[i].Table? && kids[i].ref in cycle;
    s := kids[i].ref;
  }

  lemma TableFails(h: Heap, o: Options, r: Ref, level: nat)
    requires level < MAX_DEPTH && TableTree(h, o, At(h, r), level + 1).None?
    ensures Tree(h, o, Table(r), level).None?
  {
  }

  lemma KidFails(h: Heap, o: Options, t: LuaTable, level: nat, i: nat)
    requires level <= MAX_DEPTH && i < |Kids(o, t)| && Tree(h, o, Kids(o, t)[i], level).None?
    ensures TableTree(h, o, t, level).None?
  {
    var (isArray, n) := ArrayShape(t);
    if isArray && (o.sparse || FirstNil(Slots(t, n)) == n) {
      ItemsFail(h, o, Slots(t, n), level, i);
    } else {
      FieldsFail(h, o, t.entries, level, i);
    }
  }

  /** What the encoder writes of a table: its slots, or the values of its string and integer keys. */
  predicate WritesOn(h: Heap, o: Options, cycle: set<Ref>, r: Ref) {
    var t := At(h, r);
    var (isArray, n) := ArrayShape(t);
    if isArray && (o.sparse || FirstNil(Slots(t, n)) == n)
    then exists i :: 0 <= i < n && OnCycle(Slots(t, n)[i], cycle)
    else exists i :: 0 <= i < |t.entries| && !OddKey(t.entries[i].key) && OnCycle(t.entries[i].value, cycle)
  }

  predicate OnCycle(v: LuaValue, cycle: set<Ref>) {
    v.Table? && v.ref in cycle
  }

  lemma {:induction false} ItemHasNoText(h: Heap, o: Options, fmt: bool, vs: seq<LuaValue>, level: nat, i: nat)
    requires level <= MAX_DEPTH && i < |vs| && ValueText(h, o, fmt, vs[i], level).None?
    ensures ItemsText(h, o, fmt, vs, level).None?
  {
    if i > 0 {
      ItemHasNoText(h, o, fmt, vs[1..], level, i - 1);
    }
  }

  lemma {:induction false} FieldHasNoText(h: Heap, o: Options, fmt: bool, es: seq<Entry>, level: nat, i: nat)
    requires level <= MAX_DEPTH && i < |es| && !OddKey(es[i].key) && ValueText(h, o, fmt, es[i].value, level).None?
    ensures FieldsText(h, o, fmt, es, level).None?
  {
    if i > 0 {
      FieldHasNoText(h, o, fmt, es[1..], level, i - 1);
    }
  }

  lemma SlotsHaveNoText(h: Heap, o: Options, fmt: bool, es: seq<Entry>, vs: seq<LuaValue>, level: nat)
    requires 0 < level <= MAX_DEPTH
    requires if o.sparse || FirstNil(vs) == |vs| then ItemsText(h, o, fmt, vs, level).None? else ObjectText(h, o, fmt, es, level).None?
    ensures SlotsText(h, o, fmt, es, vs, level).None?
  {
  }

  /** A value on the cycle that is written, and has no text itself, leaves its table without text. */
  lemma TableHasNoText(h: Heap, o: Options, fmt: bool, cycle: set<Ref>, r: Ref, level: nat)
    requires 0 < level <= MAX_DEPTH && WritesOn(h, o, cycle, r)
    requires forall s :: s in cycle ==> ValueText(h, o, fmt, Table(s), level).None?
    ensures TableText(h, o, fmt, At(h, r), level).None?
  {
    var t := At(h, r);
    var (isArray, n) := ArrayShape(t);
    if isArray && (o.sparse || FirstNil(Slots(t, n)) == n) {
      var i :| 0 <= i < n && OnCycle(Slots(t, n)[i], cycle);
      assert Slots(t, n)[i] == Table(Slots(t, n)[i].ref);
      ItemHasNoText(h, o, fmt, Slots(t, n), level, i);
      SlotsHaveNoText(h, o, fmt, t.entries, Slots(t, n), level);
    } else {
      var i :| 0 <= i < |t.entries| && !OddKey(t.entries[i].key) && OnCycle(t.entries[i].value, cycle);
      assert t.entries[i].value == Table(t.entries[i].value.ref);
      FieldHasNoText(h, o, fmt, t.entries, level, i);
      assert ObjectText(h, o, fmt, t.entries, level).None?;
      if isArray {
        SlotsHaveNoText(h, o, fmt, t.entries, Slots(t, n), level);
      }
    }
  }

  /** The encoder too refuses every table that leads into a cycle by what it writes, whatever else the tables hold. */
  lemma {:induction false} CyclesHaveNoText(h: Heap, o: Options, fmt: bool, cycle: set<Ref>, r: Ref, level: nat)
    requires r in cycle && level <= MAX_DEPTH
    requires forall s {:trigger WritesOn(h, o, cycle, s)} :: s in cycle ==> WritesOn(h, o, cycle, s)
    ensures ValueText(h, o, fmt, Table(r), level).None?
    decreases MAX_DEPTH - level
  {
    if level < MAX_DEPTH {
      forall s | s in cycle ensures ValueText(h, o, fmt, Table(s), level + 1).None? {
        CyclesHaveNoText(h, o, fmt, cycle, s, level + 1);
      }
      assert WritesOn(h, o, cycle, r);
      TableHasNoText(h, o, fmt, cycle, r, level + 1);
    }
  }

  predicate LeadsOn(h: Heap, o: Options, cycle: set<Ref>, r: Ref) {
    var kids := Kids(o, At(h, r));
    exists i :: 0 <= i < |kids| && kids[i].Table? && kids[i].ref in cycle
  }

  // Where the encoder's text is not JSON for its value

  /** A string takes up at least its own length and the closing quotation mark; no more only if it is plain. */
  lemma {:induction false} PlainTakesLeast(t: Text)
    requires J.ParseChars(t).Some?
    ensures var p := J.ParseChars(t).value;
      |p.value| + 1 + |p.rest| <= |t| && (|p.value| + 1 + |p.rest| == |t| ==> PlainText(p.value))
    decreases |t|
  {
    if t[0] == J.QUOTE {
    } else if t[0] != J.BACKSLASH {
      PlainTakesLeast(t[1..]);
    } else {
      EscapeTakesMore(t[1..]);
      PlainTakesLeast(J.ParseEscape(t[1..]).value.rest);
    }
  }

  lemma EscapeTakesMore(t: Text)
    requires J.ParseEscape(t).Some?
    ensures var e := J.ParseEscape(t).value; |e.value| + |e.rest| <= |t|
  {
  }

  /** A written name reads back as itself, up to what follows it, exactly when it is UTF-8 and needs no escape. */
  lemma NameReadsBackExactly(key: Text, fmt: bool, after: Text)
    ensures var space := if fmt then [J.BLANK] else [];
      J.ParseName(NameText(key, fmt) + after) == Some(J.Parsed(key, space + after)) <==> PlainText(key) && J.Utf8(key)
  {
    var space := if fmt then [J.BLANK] else [];
    var t := NameText(key, fmt) + after;
    if PlainText(key) {
      NameParses([], key, fmt, after);
      assert [] + t == t;
    } else if J.ParseName(t) == Some(J.Parsed(key, space + after)) {
      PlainTakesLeast(t[1..]);
    }
  }

  /** Text of one field, as a table with that one field comes out. */
  lemma OneFieldText(h: Heap, e: Entry)
    requires 0 in h && h[0] == LuaTable([e], 0, false, false) && !e.key.Integer?
    ensures ValueText(h, DEFAULT, false, Table(0), 0)
      == Around([J.OPEN_BRACE], FieldText(h, DEFAULT, false, e, 1), [] + [] + [J.CLOSE_BRACE])
  {
  }

  /** So a key with a quotation mark gives text that does not parse, though the direct converter takes the value. */
  lemma KeysAreNotEscaped(h: Heap)
    requires h == map[0 := LuaTable([Entry(String([J.QUOTE]), Boolean(true))], 0, false, false)]
    ensures Legal(h[0]) && EncodedAndParsed(h, Table(0)).None? && Tree(h, DEFAULT, Table(0), 0).Some?
  {
    QuoteKeyText(h);
    DoubleQuoteIsNoName(J.TRUE + [J.CLOSE_BRACE]);
    QuoteKeyConverts(h);
  }

  lemma QuoteKeyText(h: Heap)
    requires h == map[0 := LuaTable([Entry(String([J.QUOTE]), Boolean(true))], 0, false, false)]
    ensures ValueText(h, DEFAULT, false, Table(0), 0)
      == Some([J.OPEN_BRACE] + ([J.QUOTE, J.QUOTE, J.QUOTE, J.COLON] + (J.TRUE + [J.CLOSE_BRACE])))
  {
    OneFieldText(h, h[0].entries[0]);
    var t := [J.OPEN_BRACE] + ([J.QUOTE, J.QUOTE, J.QUOTE, J.COLON] + (J.TRUE + [J.CLOSE_BRACE]));
    assert ValueText(h, DEFAULT, false, Boolean(true), 1) == Some(J.TRUE);
    assert ValueText(h, DEFAULT, false, Table(0), 0).value == t;
  }

  lemma DoubleQuoteIsNoName(after: Text)
    ensures J.Parse([J.OPEN_BRACE] + ([J.QUOTE, J.QUOTE, J.QUOTE, J.COLON] + after)).None?
  {
    var name := [J.QUOTE, J.QUOTE, J.QUOTE, J.COLON] + after;
    assert name[1..][1..] == [J.QUOTE, J.COLON] + after;
    assert J.ParseChars(name[1..]) == Some(J.Parsed([], name[1..][1..]));
    assert J.ParseName(name).None?;
    assert J.Skip(name) == name;
    assert J.ParseObject(name).None?;
    StepsIn([J.OPEN_BRACE], name);
    assert J.Skip([J.OPEN_BRACE] + name) == [J.OPEN_BRACE] + name;
  }

  lemma QuoteKeyConverts(h: Heap)
    requires h == map[0 := LuaTable([Entry(String([J.QUOTE]), Boolean(true))], 0, false, false)]
    ensures Tree(h, DEFAULT, Table(0), 0).Some?
  {
    AsciiIsUtf8([J.QUOTE]);
    FieldsConvert(h, DEFAULT, h[0].entries, 1);
  }

  // Sequences that are not recognised

  /** A sequence that the detector misses is written, and converted, as an object with its indices for names. */
  lemma MissedSequenceIsObject(h: Heap, o: Options, fmt: bool, t: LuaTable, n: nat, level: nat)
    requires 0 < n && IsSequenceOf(t, n) && ArrayShape(t) != (true, n) && 0 < level <= MAX_DEPTH
    ensures TableText(h, o, fmt, t, level) == ObjectText(h, o, fmt, t.entries, level)
    ensures TableTree(h, o, t, level) == AsObject(FieldsTree(h, o, t.entries, level))
  {
    BorderOfNumbered(t, n);
    assert IndexOf(t.entries, Integer(1)) < |t.entries|;
  }
}
