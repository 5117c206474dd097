/**
 * When encoding and parsing gives exactly what the direct converter gives: JSON text cannot be shorter than its value
 * with all names escaped, and the encoder's text is shorter than that as soon as a name needs an escape.
 */
module JsonExact {
  import opened Wrappers
  import opened Bytes
  import opened LuaTables
  import opened JsonEncoding
  import opened JsonWritten
  import opened JsonRoundTrip
  import opened JsonTheorems
  import J = Json

  // The least length of a value's text

  ghost function Least(j: J.Json): nat
    decreases j, 1
  {
    match j
    case Null => 4
    case Bool(on) => if on then 4 else 5
    case Number(n) => |Signed(n)|
    case Real(text) => |text|
    case String(s) => |Escape(s)| + 2
    case Array(items) => if items == [] then 2 else 1 + LeastItems(items)
    case Object(fields) => if fields == map[] then 2 else 1 + LeastFields(j, fields.Keys)
  }

  /** Items, each with the comma or bracket after it. */
  ghost function LeastItems(items: seq<J.Json>): nat
    decreases items, 0
  {
    if items == [] then 0 else Least(items[0]) + 1 + LeastItems(items[1..])
  }

  ghost function AnyOf(keys: set<Text>): (k: Text)
    requires keys != {}
    ensures k in keys
  {
    var k :| k in keys; k
  }

  /** Fields, each with its name, its colon and the comma or brace after it. */
  ghost function LeastFields(j: J.Json, keys: set<Text>): nat
    requires j.Object? && keys <= j.fields.Keys
    decreases j, 0, |keys|
  {
    if keys == {} then 0
    else
      var k := AnyOf(keys);
      |Escape(k)| + 4 + Least(j.fields[k]) + LeastFields(j, keys - {k})
  }

  /** The sum may be taken in any order. */
  lemma {:induction false} LeastFieldsPick(j: J.Json, keys: set<Text>, k: Text)
    requires j.Object? && keys <= j.fields.Keys && k in keys
    ensures LeastFields(j, keys) == |Escape(k)| + 4 + Least(j.fields[k]) + LeastFields(j, keys - {k})
    decreases |keys|
  {
    var first := AnyOf(keys);
    if first != k {
      LeastFieldsPick(j, keys - {first}, k);
      LeastFieldsPick(j, keys - {k}, first);
      assert keys - {first} - {k} == keys - {k} - {first};
    }
  }

  lemma {:induction false} LeastFieldsSame(i: J.Json, j: J.Json, keys: set<Text>)
    requires i.Object? && j.Object? && keys <= i.fields.Keys && keys <= j.fields.Keys
    requires forall k :: k in keys ==> i.fields[k] == j.fields[k]
    ensures LeastFields(i, keys) == LeastFields(j, keys)
    decreases |keys|
  {
    if keys != {} {
      LeastFieldsSame(i, j, keys - {AnyOf(keys)});
    }
  }

  ghost function LeastOf(m: map<Text, J.Json>): nat {
    LeastFields(J.Object(m), m.Keys)
  }

  /** A new field adds its own length, and one that is replaced nothing. */
  lemma LeastOfMerged(k: Text, v: J.Json, m: map<Text, J.Json>)
    ensures LeastOf(map[k := v] + m) == if k in m then LeastOf(m) else |Escape(k)| + 4 + Least(v) + LeastOf(m)
  {
    var all := map[k := v] + m;
    if k in m {
      assert all == m;
    } else {
      LeastFieldsPick(J.Object(all), all.Keys, k);
      assert all.Keys - {k} == m.Keys;
      LeastFieldsSame(J.Object(all), J.Object(m), m.Keys);
    }
  }

  // No text is shorter

  lemma {:induction false} EscapeTogether(a: Text, b: Text)
    ensures Escape(a + b) == Escape(a) + Escape(b)
  {
    if a == [] {
      assert a + b == b;
    } else {
      EscapeTogether(a[1..], b);
      EscapeOnward(a[0], a[1..], b);
      assert [a[0]] + a[1..] == a;
    }
  }

  lemma EscapeOnward(c: byte, a: Text, b: Text)
    requires Escape(a + b) == Escape(a) + Escape(b)
    ensures Escape(([c] + a) + b) == Escape([c] + a) + Escape(b)
  {
    Associates([c], a, b);
    FirstEscape([c] + a, c, a);
    FirstEscape([c] + (a + b), c, a + b);
    Associates(EscapeByte(c), Escape(a), Escape(b));
  }

  lemma FirstEscape(t: Text, c: byte, more: Text)
    requires t == [c] + more
    ensures Escape(t) == EscapeByte(c) + Escape(more)
  {
    assert t[1..] == more;
  }

  lemma {:induction false} HighEscape(t: Text)
    requires forall i :: 0 <= i < |t| ==> t[i] >= 0x80
    ensures Escape(t) == t
  {
    if t != [] {
      HighEscape(t[1..]);
    }
  }

  /** An escape is no shorter than the encoder's own escape of what it stands for. */
  lemma EscapeIsLeast(t: Text)
    requires J.ParseEscape(t).Some?
    ensures var e := J.ParseEscape(t).value; |Escape(e.value)| + |e.rest| <= |t| + 1
  {
    var e := J.ParseEscape(t).value;
    if t[0] != 117 {
      assert e.value[1..] == [];
    } else {
      CodePointIsLeast(t);
    }
  }

  lemma CodePointEscape(c: nat)
    requires c < 0x11_0000
    ensures |Escape(J.CharText(c))| <= 6
  {
    var t := J.CharText(c);
    if c < 0x80 {
      assert t[1..] == [];
    } else {
      HighEscape(t);
    }
  }

  lemma CodePointIsLeast(t: Text)
    requires J.ParseEscape(t).Some? && t[0] == 117
    ensures var e := J.ParseEscape(t).value; |Escape(e.value)| <= 6 && |e.rest| + 5 <= |t|
  {
    var high := J.Hex4(t[1..]);
    if high.value < 0xD800 || 0xE000 <= high.value {
      CodePointEscape(high.value);
    } else {
      CodePointEscape(0x1_0000 + 0x400 * (high.value - 0xD800) + (J.Hex4(t[7..]).value - 0xDC00));
    }
  }

  lemma {:induction false} CharsAreLeast(t: Text)
    requires J.ParseChars(t).Some?
    ensures var p := J.ParseChars(t).value; |Escape(p.value)| + 1 + |p.rest| <= |t|
    decreases |t|
  {
    if t[0] == J.QUOTE {
    } else if t[0] != J.BACKSLASH {
      CharsAreLeast(t[1..]);
      OneChar(t[0], J.ParseChars(t[1..]).value.value);
    } else {
      var e := J.ParseEscape(t[1..]).value;
      EscapeIsLeast(t[1..]);
      CharsAreLeast(e.rest);
      EscapeTogether(e.value, J.ParseChars(e.rest).value.value);
    }
  }

  lemma OneChar(c: byte, s: Text)
    requires c >= 32 && c != J.QUOTE && c != J.BACKSLASH
    ensures |Escape([c] + s)| == 1 + |Escape(s)|
  {
    assert ([c] + s)[1..] == s;
  }

  lemma {:induction false} ValueBelow(t: Text)
    requires AllDigits(t)
    ensures Value(t) < Power10(|t|)
  {
    if t != [] {
      ValueBelow(t[..|t| - 1]);
    }
  }

  lemma DigitsAreLeast(t: Text)
    requires AllDigits(t) && t != []
    ensures |Digits(Value(t))| <= |t|
  {
    ValueBelow(t);
    DigitsFit(Value(t), |t|);
  }

  lemma MagnitudeIsLeast(t: Text)
    requires J.ParseMagnitude(t).Some?
    ensures var p := J.ParseMagnitude(t).value;
      (p.value.Real? || (p.value.Number? && p.value.number >= 0)) && Least(p.value) + |p.rest| <= |t|
  {
    DigitsAreLeast(t[..J.DigitRun(t)]);
  }

  lemma MinusIsLeast(j: J.Json)
    requires j.Real? || (j.Number? && j.number >= 0)
    ensures Least(J.Negated(j)) <= Least(j) + 1
  {
  }

  lemma NumberIsLeast(t: Text)
    requires J.ParseNumber(t).Some?
    ensures Least(J.ParseNumber(t).value.value) + |J.ParseNumber(t).value.rest| <= |t|
  {
    if J.StartsWith(t, MINUS) {
      MagnitudeIsLeast(t[1..]);
      MinusIsLeast(J.ParseMagnitude(t[1..]).value.value);
    } else {
      MagnitudeIsLeast(t);
    }
  }

  lemma StringIsLeast(t: Text)
    requires J.ParseString(t).Some?
    ensures |Escape(J.ParseString(t).value.value)| + 2 + |J.ParseString(t).value.rest| <= |t|
  {
    CharsAreLeast(t[1..]);
  }

  lemma NameIsLeast(t: Text)
    requires J.ParseName(t).Some?
    ensures |Escape(J.ParseName(t).value.value)| + 3 + |J.ParseName(t).value.rest| <= |t|
  {
    StringIsLeast(J.Skip(t));
  }

  lemma ValueIsLeast(text: Text)
    requires J.ParseValue(text).Some?
    ensures Least(J.ParseValue(text).value.value) + |J.ParseValue(text).value.rest| <= |text|
    decreases |text|, 1
  {
    var t := J.Skip(text);
    if t[0] == J.QUOTE {
      StringIsLeast(t);
    } else if t[0] == J.OPEN_BRACKET {
      ArrayIsLeast(t[1..]);
    } else if t[0] == J.OPEN_BRACE {
      ObjectIsLeast(t[1..]);
    } else if t[0] != 110 && t[0] != 116 && t[0] != 102 {
      NumberIsLeast(t);
    }
  }

  lemma ArrayIsLeast(text: Text)
    requires J.ParseArray(text).Some?
    ensures Least(J.ParseArray(text).value.value) + |J.ParseArray(text).value.rest| <= |text| + 1
    decreases |text|, 3
  {
    var t := J.Skip(text);
    if !J.StartsWith(t, J.CLOSE_BRACKET) {
      ItemsAreLeast(t);
    }
  }

  lemma ItemsAreLeast(text: Text)
    requires J.ParseItems(text).Some?
    ensures J.ParseItems(text).value.value != []
    ensures LeastItems(J.ParseItems(text).value.value) + |J.ParseItems(text).value.rest| <= |text|
    decreases |text|, 2
  {
    ValueIsLeast(text);
    var p := J.ParseValue(text).value;
    var t := J.Skip(p.rest);
    if J.StartsWith(t, J.COMMA) {
      ItemsAreLeast(t[1..]);
      assert ([p.value] + J.ParseItems(t[1..]).value.value)[1..] == J.ParseItems(t[1..]).value.value;
    } else {
      assert [p.value][1..] == [];
    }
  }

  lemma ObjectIsLeast(text: Text)
    requires J.ParseObject(text).Some?
    ensures Least(J.ParseObject(text).value.value) + |J.ParseObject(text).value.rest| <= |text| + 1
    decreases |text|, 3
  {
    var t := J.Skip(text);
    if !J.StartsWith(t, J.CLOSE_BRACE) {
      FieldsAreLeast(t);
    }
  }

  lemma FieldsAreLeast(text: Text)
    requires J.ParseFields(text).Some?
    ensures J.ParseFields(text).value.value != map[]
    ensures LeastOf(J.ParseFields(text).value.value) + |J.ParseFields(text).value.rest| <= |text|
    decreases |text|, 2
  {
    NameIsLeast(text);
    var name := J.ParseName(text).value;
    ValueIsLeast(name.rest);
    var p := J.ParseValue(name.rest).value;
    var t := J.Skip(p.rest);
    if J.StartsWith(t, J.COMMA) {
      FieldsAreLeast(t[1..]);
      MergedIsLeast(name.value, p.value, J.ParseFields(t[1..]).value.value);
    } else {
      MergedIsLeast(name.value, p.value, map[]);
      assert map[name.value := p.value] + map[] == map[name.value := p.value];
    }
  }

  lemma MergedIsLeast(k: Text, v: J.Json, m: map<Text, J.Json>)
    ensures map[k := v] + m != map[] && LeastOf(map[k := v] + m) <= |Escape(k)| + 4 + Least(v) + LeastOf(m)
    ensures LeastOf(map[]) == 0
  {
    LeastOfMerged(k, v, m);
    assert k in map[k := v] + m;
  }

  // The encoder's text, with names as they are, is longer nowhere

  const NAMED := Demand(false, Never, false, true)

  lemma {:induction false} EscapeIsLonger(s: Text)
    ensures |s| <= |Escape(s)| && (|s| == |Escape(s)| ==> PlainText(s))
  {
    if s != [] {
      EscapeIsLonger(s[1..]);
      assert PlainText(s[1..]) && EscapeOf(s[0]) == 0 ==> PlainText(s) by {
        assert forall i :: 0 < i < |s| ==> s[i] == s[1..][i - 1];
      }
    }
  }

  lemma ScalarLength(h: Heap, o: Options, v: LuaValue, level: nat)
    requires level <= MAX_DEPTH && !v.Table? && CleanValue(v) && Tree(h, o, v, level).Some?
    ensures ValueText(h, o, false, v, level).Some? && |ValueText(h, o, false, v, level).value| == Least(Tree(h, o, v, level).value)
    ensures Meets(h, o, CLEAN, v, level)
  {
  }

  /** The text of a value is no longer than the least text of its tree, and as long only when its names are plain. */
  lemma ValueLength(h: Heap, o: Options, v: LuaValue, level: nat)
    requires level <= MAX_DEPTH && Meets(h, o, NAMED, v, level)
    requires Tree(h, o, v, level).Some? && ValueText(h, o, false, v, level).Some?
    ensures var (text, j) := (ValueText(h, o, false, v, level).value, Tree(h, o, v, level).value);
      |text| <= Least(j) && (|text| == Least(j) ==> Meets(h, o, CLEAN, v, level))
    decreases MAX_DEPTH - level, 0, 0
  {
    if v.Table? {
      TableLength(h, o, At(h, v.ref), level + 1);
    } else {
      ScalarLength(h, o, v, level);
    }
  }

  lemma ItemsLength(h: Heap, o: Options, vs: seq<LuaValue>, level: nat)
    requires level <= MAX_DEPTH && ItemsMeet(h, o, NAMED, vs, level) && vs != []
    requires ItemsTree(h, o, vs, level).Some? && ItemsText(h, o, false, vs, level).Some?
    ensures var (text, js) := (ItemsText(h, o, false, vs, level).value, ItemsTree(h, o, vs, level).value);
      js != [] && |text| + 1 <= LeastItems(js) && (|text| + 1 == LeastItems(js) ==> ItemsMeet(h, o, CLEAN, vs, level))
    decreases MAX_DEPTH - level, 1, |vs|
  {
    ValueLength(h, o, vs[0], level);
    var js := ItemsTree(h, o, vs, level).value;
    if |vs| > 1 {
      ItemsLength(h, o, vs[1..], level);
      assert js[1..] == ItemsTree(h, o, vs[1..], level).value;
      assert forall i :: 0 < i < |vs| ==> vs[i] == vs[1..][i - 1];
    } else {
      assert ItemsTree(h, o, vs[1..], level).value == [] && js[1..] == [];
    }
  }

  /** The names of a tree are those of the entries. */
  lemma {:induction false} NamesOfTree(h: Heap, o: Options, es: seq<Entry>, level: nat, k: Text)
    requires level <= MAX_DEPTH && FieldsTree(h, o, es, level).Some? && k in FieldsTree(h, o, es, level).value
    ensures exists i :: 0 <= i < |es| && !OddKey(es[i].key) && Written(es[i].key) == k
  {
    if es[0].key.String? || es[0].key.Integer? {
      if Written(es[0].key) != k {
        NamesOfTree(h, o, es[1..], level, k);
        var i :| 0 <= i < |es[1..]| && !OddKey(es[1..][i].key) && Written(es[1..][i].key) == k;
        assert es[i + 1] == es[1..][i];
      }
    }
  }

  lemma FirstNameIsNew(h: Heap, o: Options, es: seq<Entry>, level: nat)
    requires level <= MAX_DEPTH && es != [] && !OddKey(es[0].key) && DistinctNames(es) && FieldsTree(h, o, es[1..], level).Some?
    ensures Written(es[0].key) !in FieldsTree(h, o, es[1..], level).value
  {
    var k := Written(es[0].key);
    if k in FieldsTree(h, o, es[1..], level).value {
      NamesOfTree(h, o, es[1..], level, k);
    }
  }

  /** One field: its text is no longer than what it adds to the least length. */
  lemma FieldLength(h: Heap, o: Options, e: Entry, level: nat)
    requires level <= MAX_DEPTH && !OddKey(e.key) && Meets(h, o, NAMED, e.value, level)
    requires Name(o, e.key).Some? && Tree(h, o, e.value, level).Some? && FieldText(h, o, false, e, level).Some?
    ensures var (text, j) := (FieldText(h, o, false, e, level).value, Tree(h, o, e.value, level).value);
      var n := |Escape(Written(e.key))| + 3 + Least(j);
      |text| <= n && (|text| == n ==> CleanKey(e.key) && Meets(h, o, CLEAN, e.value, level))
    decreases MAX_DEPTH - level, 0, 1
  {
    ValueLength(h, o, e.value, level);
    EscapeIsLonger(Written(e.key));
  }

  lemma FieldsLength(h: Heap, o: Options, es: seq<Entry>, level: nat)
    requires level <= MAX_DEPTH && FieldsMeet(h, o, NAMED, es, level) && es != []
    requires FieldsTree(h, o, es, level).Some? && FieldsText(h, o, false, es, level).Some?
    ensures var (text, m) := (FieldsText(h, o, false, es, level).value, FieldsTree(h, o, es, level).value);
      m != map[] && |text| + 1 <= LeastOf(m) && (|text| + 1 == LeastOf(m) ==> FieldsMeet(h, o, CLEAN, es, level))
    decreases MAX_DEPTH - level, 1, |es|
  {
    assert KeyMeets(NAMED, es[0].key, |es| == 1);
    FieldLength(h, o, es[0], level);
    LaterFieldsMeet(h, o, NAMED, es, level);
    FirstNameIsNew(h, o, es, level);
    MergedIsLeast(Written(es[0].key), Tree(h, o, es[0].value, level).value, FieldsTree(h, o, es[1..], level).value);
    LeastOfMerged(Written(es[0].key), Tree(h, o, es[0].value, level).value, FieldsTree(h, o, es[1..], level).value);
    if |es| > 1 {
      FieldsLength(h, o, es[1..], level);
      CleanTogether(h, o, es, level);
    }
  }

  lemma CleanTogether(h: Heap, o: Options, es: seq<Entry>, level: nat)
    requires level <= MAX_DEPTH && es != []
    ensures CleanKey(es[0].key) && Meets(h, o, CLEAN, es[0].value, level) && FieldsMeet(h, o, CLEAN, es[1..], level)
      ==> FieldsMeet(h, o, CLEAN, es, level)
  {
    if FieldsMeet(h, o, CLEAN, es[1..], level) {
      assert forall i :: 0 <= i < |es[1..]| ==> KeyMeets(CLEAN, es[1..][i].key, |es[1..]| == 1);
      assert forall i :: 0 < i < |es| ==> es[i] == es[1..][i - 1];
    }
  }

  lemma ArrayOfTable(h: Heap, o: Options, t: LuaTable, level: nat)
    requires 0 < level <= MAX_DEPTH && AsSlots(o, t)
    ensures var vs := Slots(t, ArrayShape(t).1);
      && TableText(h, o, false, t, level) == Around([J.OPEN_BRACKET], ItemsText(h, o, false, vs, level), [J.CLOSE_BRACKET])
      && TableTree(h, o, t, level) == AsArray(ItemsTree(h, o, vs, level))
  {
    var vs := Slots(t, ArrayShape(t).1);
    assert [J.OPEN_BRACKET] + [] == [J.OPEN_BRACKET] && [] + [J.CLOSE_BRACKET] == [J.CLOSE_BRACKET];
    assert ArrayText(h, o, false, vs, level) == Around([J.OPEN_BRACKET], ItemsText(h, o, false, vs, level), [J.CLOSE_BRACKET]);
  }

  lemma TableLength(h: Heap, o: Options, t: LuaTable, level: nat)
    requires 0 < level <= MAX_DEPTH && TableMeets(h, o, NAMED, t, level)
    requires TableTree(h, o, t, level).Some? && TableText(h, o, false, t, level).Some?
    ensures var (text, j) := (TableText(h, o, false, t, level).value, TableTree(h, o, t, level).value);
      |text| <= Least(j) && (|text| == Least(j) ==> TableMeets(h, o, CLEAN, t, level))
    decreases MAX_DEPTH - level, 2, 0
  {
    if AsSlots(o, t) {
      ArrayOfTable(h, o, t, level);
      if Slots(t, ArrayShape(t).1) != [] {
        ItemsLength(h, o, Slots(t, ArrayShape(t).1), level);
      }
    } else {
      ObjectOfTable(h, o, false, t, level);
      if t.entries != [] {
        FieldsLength(h, o, t.entries, level);
      }
    }
  }

  /**
   * For every value that the direct converter takes, without floats and with distinct names in each table: encoding
   * it compactly and parsing gives what the converter gives exactly when no name that is written needs an escape.
   */
  lemma SlowIsDirectExactly(h: Heap, o: Options, v: LuaValue)
    requires Meets(h, o, NAMED, v, 0) && Tree(h, o, v, 0).Some?
    ensures var t := ValueText(h, o, false, v, 0);
      t.Some? && (J.Parse(t.value) == Tree(h, o, v, 0) <==> Meets(h, o, CLEAN, v, 0))
  {
    if ValueText(h, o, false, v, 0).None? {
      NoTextNoTree(h, o, false, v, 0);
      assert false;
    }
    var t := ValueText(h, o, false, v, 0).value;
    if Meets(h, o, CLEAN, v, 0) {
      EncodeParses(h, o, false, v);
    } else if J.Parse(t) == Tree(h, o, v, 0) {
      ValueIsLeast(t);
      ValueLength(h, o, v, 0);
    }
  }
}
