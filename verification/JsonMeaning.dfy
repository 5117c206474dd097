/** What single values, metafields, options and nested tables come to, in the text of RFC 8259 and as trees. */
module JsonMeaning {
  import opened Wrappers
  import opened Bytes
  import opened LuaTables
  import opened JsonEncoding
  import opened JsonWritten
  import opened JsonRoundTrip
  import opened JsonTheorems
  import J = Json

  /** The marks and words that reader and writer share are those of JSON. */
  lemma Vocabulary()
    ensures [J.QUOTE, J.COMMA, J.COLON, J.BACKSLASH] == Ascii("\",:\\")
    ensures [J.OPEN_BRACKET, J.CLOSE_BRACKET, J.OPEN_BRACE, J.CLOSE_BRACE] == Ascii("[]{}")
    ensures [J.NEWLINE, J.BLANK, MINUS, PLUS] == Ascii("\n -+")
    ensures J.NULL == Ascii("null") && J.TRUE == Ascii("true") && J.FALSE == Ascii("false")
  {
  }

  /** The values without parts, as text and as trees. */
  lemma Scalars(h: Heap, o: Options, fmt: bool, level: nat, n: int, s: Text)
    requires level <= MAX_DEPTH
    ensures ValueText(h, o, fmt, Nil, level) == Some(Ascii("null")) && Tree(h, o, Nil, level) == Some(J.Null)
    ensures ValueText(h, o, fmt, LightUserData(true), level) == Some(Ascii("null")) && Tree(h, o, LightUserData(true), level) == Some(J.Null)
    ensures ValueText(h, o, fmt, Boolean(true), level) == Some(Ascii("true")) && Tree(h, o, Boolean(true), level) == Some(J.Bool(true))
    ensures ValueText(h, o, fmt, Boolean(false), level) == Some(Ascii("false")) && Tree(h, o, Boolean(false), level) == Some(J.Bool(false))
    ensures ValueText(h, o, fmt, Integer(n), level).Some? && Reads(ValueText(h, o, fmt, Integer(n), level).value, n)
    ensures Tree(h, o, Integer(n), level) == Some(J.Number(n))
    ensures J.Utf8(s) ==> Tree(h, o, String(s), level) == Some(J.String(s))
    ensures !J.Utf8(s) ==> Tree(h, o, String(s), level).None?
    ensures ValueText(h, o, fmt, Float(s, true), level) == Some(s) && Tree(h, o, Float(s, true), level) == Some(J.Real(s))
    ensures Tree(h, o, Float(s, false), level).None? && Tree(h, o, LightUserData(false), level).None?
    ensures ValueText(h, o, fmt, Other, level).None? && Tree(h, o, Other, level).None?
  {
    Vocabulary();
    SignedReads(n);
  }

  /** A decimal number with an optional minus sign. */
  predicate Reads(t: Text, n: int) {
    if n < 0 then t != [] && t[0] == 45 && AllDigits(t[1..]) && Value(t[1..]) == -n else AllDigits(t) && Value(t) == n
  }

  lemma SignedReads(n: int)
    ensures Reads(Signed(n), n)
  {
    ValueOfDigits(if n < 0 then -n else n);
    if n < 0 {
      assert Signed(n)[1..] == Digits(-n);
    }
  }

  // Nested tables

  /** Where nothing else is in the way, there is text, and a tree, for exactly the values whose tables nest at most 64 deep. */
  lemma SixtyFour(h: Heap, o: Options, fmt: bool, v: LuaValue)
    requires PlainHeap(h, o) && Plain(v)
    ensures ValueText(h, o, fmt, v, 0).Some? <==> Nests(h, o, v, 64)
    ensures Tree(h, o, v, 0).Some? <==> Nests(h, o, v, 64)
  {
    EncodesExactlyUpTo64(h, o, fmt, v, 0);
    ConvertsExactlyUpTo64(h, o, v, 0);
  }

  /** So many tables, each inside the one before. */
  function Nested(n: nat): (h: Heap)
    ensures forall r :: r in h <==> 0 <= r < n
    ensures forall r :: 0 <= r < n ==> h[r] == Link(r, n)
  {
    map r: int | 0 <= r < n :: Link(r, n)
  }

  function Link(r: int, n: nat): LuaTable {
    LuaTable([Entry(String([97]), if r + 1 < n then Table(r + 1) else Boolean(true))], 0, false, false)
  }

  lemma NestedIsLegal(n: nat)
    ensures LegalHeap(Nested(n))
  {
  }

  lemma NestedIsPlain(o: Options, n: nat)
    ensures PlainHeap(Nested(n), o)
  {
    AsciiIsUtf8([97]);
    assert Name(o, String([97])).Some?;
  }

  lemma LinkKids(o: Options, r: int, n: nat)
    ensures Kids(o, Link(r, n)) == [if r + 1 < n then Table(r + 1) else Boolean(true)]
  {
    assert !InRange(Link(r, n).entries[0].key, 0);
  }

  lemma {:induction false} NestedNests(o: Options, r: nat, n: nat, m: nat)
    requires r < n
    ensures Nests(Nested(n), o, Table(r), m) <==> n - r <= m
    decreases m
  {
    LinkKids(o, r, n);
    assert At(Nested(n), r) == Link(r, n);
    if m > 0 {
      NestsInside(Nested(n), o, r, m - 1);
      if r + 1 < n {
        NestedNests(o, r + 1, n, m - 1);
      }
    }
  }

  /** A chain of n tables is written and converted exactly when n is at most 64. */
  lemma NestedExactly(o: Options, fmt: bool, n: nat)
    requires n > 0
    ensures LegalHeap(Nested(n))
    ensures ValueText(Nested(n), o, fmt, Table(0), 0).Some? <==> n <= 64
    ensures Tree(Nested(n), o, Table(0), 0).Some? <==> n <= 64
  {
    NestedIsLegal(n);
    NestedIsPlain(o, n);
    NestedNests(o, 0, n, 64);
    SixtyFour(Nested(n), o, fmt, Table(0));
  }

  // Layout

  /** Pretty text: two blanks for each table around, each item and field on its own line, a blank after the colon. */
  lemma PrettyArray(o: Options)
    ensures ArrayText(map[], o, true, [Boolean(true), Nil], 2)
      == Some([91, 10] + ([32, 32, 32, 32] + J.TRUE + [10] + [44] + ([32, 32, 32, 32] + J.NULL + [10])) + [32, 32, 93])
  {
    var vs := [Boolean(true), Nil];
    assert vs[1..] == [Nil];
    assert Indent(true, 2) == [32, 32, 32, 32] && Indent(true, 1) == [32, 32];
    assert ItemText(map[], o, true, Boolean(true), 2) == Some([32, 32, 32, 32] + J.TRUE + [10]);
    assert ItemText(map[], o, true, vs[1..][0], 2) == Some([32, 32, 32, 32] + J.NULL + [10]);
    assert ItemsText(map[], o, true, vs[1..], 2) == Some([32, 32, 32, 32] + J.NULL + [10]);
    assert ItemsText(map[], o, true, vs, 2)
      == Some([32, 32, 32, 32] + J.TRUE + [10] + [44] + ([32, 32, 32, 32] + J.NULL + [10]));
    assert [J.OPEN_BRACKET] + Line(true) == [91, 10] && Indent(true, 1) + [J.CLOSE_BRACKET] == [32, 32, 93];
  }

  lemma PrettyObject(o: Options)
    ensures ObjectText(map[], o, true, [Entry(String([97]), Boolean(true))], 1)
      == Some([123] + ([10, 32, 32] + [34, 97, 34, 58, 32] + J.TRUE) + [10, 125])
  {
    var e := Entry(String([97]), Boolean(true));
    assert Line(true) + Indent(true, 1) == [10, 32, 32];
    assert NameText([97], true) == [34, 97, 34, 58, 32];
    assert FieldText(map[], o, true, e, 1) == Some([10, 32, 32] + [34, 97, 34, 58, 32] + J.TRUE);
    assert Line(true) + Indent(true, 0) + [J.CLOSE_BRACE] == [10, 125];
  }

  // Metafields and options

  /** An array table: one item for each index, holes as null. */
  predicate IsArrayOf(h: Heap, o: Options, t: LuaTable, level: nat, j: J.Json)
    requires level <= MAX_DEPTH
  {
    j.Array? && |j.items| == t.border && forall i :: 0 <= i < |j.items| ==> Tree(h, o, Get(t, i + 1), level) == Some(j.items[i])
  }

  lemma {:induction false} ItemsOf(h: Heap, o: Options, vs: seq<LuaValue>, level: nat)
    requires level <= MAX_DEPTH && ItemsTree(h, o, vs, level).Some?
    ensures var js := ItemsTree(h, o, vs, level).value;
      |js| == |vs| && forall i :: 0 <= i < |vs| ==> Tree(h, o, vs[i], level) == Some(js[i])
  {
    if vs != [] {
      ItemsOf(h, o, vs[1..], level);
    }
  }

  predicate Opens(t: Text, c: char) {
    t != [] && t[0] as int == c as int
  }

  lemma ArrayOpens(h: Heap, o: Options, fmt: bool, vs: seq<LuaValue>, level: nat)
    requires 0 < level <= MAX_DEPTH && ArrayText(h, o, fmt, vs, level).Some?
    ensures Opens(ArrayText(h, o, fmt, vs, level).value, '[')
  {
  }

  /** The __array metafield makes an array of any table, whatever its keys, and also beside __object. */
  lemma MarkedIsArray(h: Heap, o: Options, fmt: bool, t: LuaTable, level: nat)
    requires 0 < level <= MAX_DEPTH && t.markedArray && (o.sparse || forall i :: 1 <= i <= t.border ==> Get(t, i) != Nil)
    ensures TableTree(h, o, t, level).Some? ==> IsArrayOf(h, o, t, level, TableTree(h, o, t, level).value)
    ensures TableText(h, o, fmt, t, level).Some? ==> Opens(TableText(h, o, fmt, t, level).value, '[')
  {
    var vs := Slots(t, t.border);
    assert FirstNil(vs) < |vs| ==> vs[FirstNil(vs)] == Get(t, FirstNil(vs) + 1) == Nil;
    assert TableText(h, o, fmt, t, level) == ArrayText(h, o, fmt, vs, level);
    if ArrayText(h, o, fmt, vs, level).Some? {
      ArrayOpens(h, o, fmt, vs, level);
    }
    if TableTree(h, o, t, level).Some? {
      ItemsOf(h, o, vs, level);
    }
  }

  /** The __object metafield, without __array, makes an object of any table that has entries. */
  lemma MarkedIsObject(h: Heap, o: Options, fmt: bool, t: LuaTable, level: nat)
    requires 0 < level <= MAX_DEPTH && t.markedObject && !t.markedArray && t.entries != []
    ensures TableTree(h, o, t, level).Some? ==> TableTree(h, o, t, level).value.Object?
    ensures TableText(h, o, fmt, t, level).Some? ==> Opens(TableText(h, o, fmt, t, level).value, '{')
  {
  }

  /** A table without entries, unless __array is set, is what the option for empty tables says. */
  lemma EmptyTable(h: Heap, o: Options, fmt: bool, t: LuaTable, level: nat)
    requires 0 < level <= MAX_DEPTH && t.entries == [] && !t.markedArray
    ensures TableText(h, o, fmt, t, level) == Some(Ascii(if o.emptyAsArray then "[]" else "{}"))
    ensures TableTree(h, o, t, level) == Some(if o.emptyAsArray then J.Array([]) else J.Object(map[]))
  {
    assert Ascii("[]") == [J.OPEN_BRACKET, J.CLOSE_BRACKET] && Ascii("{}") == [J.OPEN_BRACE, J.CLOSE_BRACE];
  }

  /** Without the option for number keys an object with an integer key is refused. */
  lemma NumberKeysRefused(h: Heap, o: Options, fmt: bool, t: LuaTable, level: nat, i: nat)
    requires 0 < level <= MAX_DEPTH && !o.numberKey && !ArrayShape(t).0 && i < |t.entries| && t.entries[i].key.Integer?
    ensures TableText(h, o, fmt, t, level).None? && TableTree(h, o, t, level).None?
  {
    FieldsFail(h, o, t.entries, level, i);
    KeyHasNoText(h, o, fmt, t.entries, level, i);
  }

  lemma {:induction false} KeyHasNoText(h: Heap, o: Options, fmt: bool, es: seq<Entry>, level: nat, i: nat)
    requires level <= MAX_DEPTH && i < |es| && es[i].key.Integer? && !o.numberKey
    ensures FieldsText(h, o, fmt, es, level).None?
  {
    if i > 0 {
      KeyHasNoText(h, o, fmt, es[1..], level, i - 1);
    }
  }

  /** Without the option for sparse arrays a table with a hole becomes an object, and with it the hole is null. */
  lemma HolesAre(h: Heap, o: Options, t: LuaTable, level: nat, i: nat)
    requires 0 < level <= MAX_DEPTH && ArrayShape(t).0 && 1 <= i <= t.border && Get(t, i) == Nil && t.entries != []
    requires TableTree(h, o, t, level).Some?
    ensures var j := TableTree(h, o, t, level).value;
      if o.sparse then j.Array? && i <= |j.items| && j.items[i - 1] == J.Null else j.Object?
  {
    var vs := Slots(t, t.border);
    assert vs[i - 1] == Nil;
    if o.sparse {
      ItemsOf(h, o, vs, level);
    }
  }

  /** The direct converter's fixed options: empty tables are arrays, integer keys become names, holes null. */
  lemma DirectOptions(h: Heap, t: LuaTable, n: int, v: LuaValue, level: nat)
    requires 0 < level <= MAX_DEPTH
    ensures TableTree(h, DEFAULT, EMPTY, level) == Some(J.Array([]))
    ensures Tree(h, DEFAULT, v, level).Some? ==>
      var one := LuaTable([Entry(Integer(n), v)], 0, false, true);
      TableTree(h, DEFAULT, one, level) == Some(J.Object(map[Signed(n) := Tree(h, DEFAULT, v, level).value]))
    ensures var holed := LuaTable([Entry(Integer(2), Boolean(true))], 2, false, false);
      Legal(holed) && TableTree(h, DEFAULT, holed, level) == Some(J.Array([J.Null, J.Bool(true)]))
  {
    if Tree(h, DEFAULT, v, level).Some? {
      OneField(h, n, v, level);
    }
    var holed := LuaTable([Entry(Integer(2), Boolean(true))], 2, false, false);
    var vs := Slots(holed, 2);
    assert vs == [Nil, Boolean(true)];
    TwoItems(h, level);
  }

  lemma OneField(h: Heap, n: int, v: LuaValue, level: nat)
    requires 0 < level <= MAX_DEPTH && Tree(h, DEFAULT, v, level).Some?
    ensures FieldsTree(h, DEFAULT, [Entry(Integer(n), v)], level) == Some(map[Signed(n) := Tree(h, DEFAULT, v, level).value])
  {
    var es := [Entry(Integer(n), v)];
    assert es[1..] == [];
    assert FieldsTree(h, DEFAULT, es[1..], level) == Some(map[]);
    assert map[Signed(n) := Tree(h, DEFAULT, v, level).value] + map[] == map[Signed(n) := Tree(h, DEFAULT, v, level).value];
  }

  lemma TwoItems(h: Heap, level: nat)
    requires 0 < level <= MAX_DEPTH
    ensures ItemsTree(h, DEFAULT, [Nil, Boolean(true)], level) == Some([J.Null, J.Bool(true)])
  {
    var vs := [Nil, Boolean(true)];
    assert vs[1..] == [Boolean(true)] && vs[1..][1..] == [];
    assert ItemsTree(h, DEFAULT, vs[1..][1..], level) == Some([]);
    assert [J.Bool(true)] + [] == [J.Bool(true)];
    assert Tree(h, DEFAULT, vs[1..][0], level) == Some(J.Bool(true));
    assert ItemsTree(h, DEFAULT, vs[1..], level) == Some([J.Bool(true)]);
    assert [J.Null] + [J.Bool(true)] == [J.Null, J.Bool(true)];
  }
}
