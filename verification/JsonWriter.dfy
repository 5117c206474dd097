/** The encoder: it appends to a byte vector, and takes back what it wrote when an array turns out to be an object. */
module JsonWriter {
  import opened Wrappers
  import opened Bytes
  import opened LuaTables
  import opened JsonEncoding
  import J = Json

  /** What an encoding step leaves behind: its text after the bytes there were, or an error and those bytes still first. */
  predicate Wrote(before: Text, after: Text, ok: bool, t: Option<Text>) {
    ok == t.Some? && before <= after && (ok ==> after == before + t.value)
  }

  /** What is left to write of items from a position on. */
  function ItemsFrom(h: Heap, o: Options, fmt: bool, vs: seq<LuaValue>, level: nat, i: nat): Option<Text>
    requires level <= MAX_DEPTH && i <= |vs|
  {
    if i == |vs| then Some([]) else if i == 0 then ItemsText(h, o, fmt, vs, level)
    else After([J.COMMA], ItemsText(h, o, fmt, vs[i..], level))
  }

  function FieldsFrom(h: Heap, o: Options, fmt: bool, es: seq<Entry>, level: nat, i: nat): Option<Text>
    requires level <= MAX_DEPTH && i <= |es|
  {
    if i == |es| then Some([]) else if i == 0 then FieldsText(h, o, fmt, es, level)
    else After([J.COMMA], FieldsText(h, o, fmt, es[i..], level))
  }

  function Separated(sofar: Text, i: nat): Text {
    if i == 0 then sofar else sofar + [J.COMMA]
  }

  lemma CommaShapes(sofar: Text, comma: Text, item: Text, rest: Text)
    ensures sofar + (comma + (item + comma + rest)) == ((sofar + comma) + item) + (comma + rest)
    ensures sofar + (comma + item) == ((sofar + comma) + item) + []
    ensures sofar + (item + comma + rest) == (sofar + item) + (comma + rest)
    ensures sofar + item == (sofar + item) + []
  {
  }

  lemma ItemsStep(h: Heap, o: Options, fmt: bool, vs: seq<LuaValue>, level: nat, i: nat, sofar: Text)
    requires level <= MAX_DEPTH && i < |vs|
    ensures var item := ItemText(h, o, fmt, vs[i], level);
      After(sofar, ItemsFrom(h, o, fmt, vs, level, i))
      == if item.None? then None else After(Separated(sofar, i) + item.value, ItemsFrom(h, o, fmt, vs, level, i + 1))
  {
    assert vs[i..][1..] == vs[i + 1..];
    var item, rest := ItemText(h, o, fmt, vs[i], level), ItemsText(h, o, fmt, vs[i + 1..], level);
    if item.Some? && rest.Some? {
      CommaShapes(sofar, [J.COMMA], item.value, rest.value);
    }
  }

  lemma FieldsStep(h: Heap, o: Options, fmt: bool, es: seq<Entry>, level: nat, i: nat, sofar: Text)
    requires level <= MAX_DEPTH && i < |es|
    ensures var field := FieldText(h, o, fmt, es[i], level);
      After(sofar, FieldsFrom(h, o, fmt, es, level, i))
      == if field.None? then None else After(Separated(sofar, i) + field.value, FieldsFrom(h, o, fmt, es, level, i + 1))
  {
    assert es[i..][1..] == es[i + 1..];
    var field, rest := FieldText(h, o, fmt, es[i], level), FieldsText(h, o, fmt, es[i + 1..], level);
    if field.Some? && rest.Some? {
      CommaShapes(sofar, [J.COMMA], field.value, rest.value);
    }
  }

  datatype Progress = Failed | Hole | Done

  /** How many items are written before the first hole that matters. */
  function Stop(o: Options, vs: seq<LuaValue>): (n: nat)
    ensures n <= |vs|
  {
    if o.sparse then |vs| else FirstNil(vs)
  }

  function ProgressOf(written: Option<Text>, stop: nat, size: nat): Progress {
    if written.None? then Failed else if stop < size then Hole else Done
  }

  function Opened(base: Text, line: Text, items: Option<Text>): Option<Text> {
    After(base + line, items)
  }

  lemma HoleIs(o: Options, t: LuaTable, size: nat, i: nat)
    requires i < size && i <= Stop(o, Slots(t, size))
    ensures Get(t, i + 1) == Nil && !o.sparse <==> i == Stop(o, Slots(t, size))
    ensures i < Stop(o, Slots(t, size)) ==> Slots(t, size)[..Stop(o, Slots(t, size))][i] == Get(t, i + 1)
  {
    assert Slots(t, size)[i] == Get(t, i + 1);
  }

  function ItemsToStop(h: Heap, o: Options, fmt: bool, vs: seq<LuaValue>, level: nat): Option<Text>
    requires level <= MAX_DEPTH
  {
    ItemsText(h, o, fmt, vs[..Stop(o, vs)], level)
  }

  lemma SlotsTextIs(h: Heap, o: Options, fmt: bool, es: seq<Entry>, vs: seq<LuaValue>, level: nat)
    requires 0 < level <= MAX_DEPTH
    ensures ItemsToStop(h, o, fmt, vs, level).None? ==> SlotsText(h, o, fmt, es, vs, level).None?
    ensures ItemsToStop(h, o, fmt, vs, level).Some? && Stop(o, vs) < |vs| ==>
      SlotsText(h, o, fmt, es, vs, level) == ObjectText(h, o, fmt, es, level)
    ensures ItemsToStop(h, o, fmt, vs, level).Some? && Stop(o, vs) == |vs| ==>
      SlotsText(h, o, fmt, es, vs, level)
      == Some([J.OPEN_BRACKET] + (if vs == [] then [] else Line(fmt)) + ItemsToStop(h, o, fmt, vs, level).value
              + (Indent(fmt, level - 1) + [J.CLOSE_BRACKET]))
  {
    assert vs[..|vs|] == vs;
  }

  lemma CloseShape(base: Text, open: Text, line: Text, items: Text, indent: Text, close: Text)
    ensures ((((base + open) + line) + items) + indent) + close == base + (open + line + items + (indent + close))
    ensures ((base + open) + indent) + close == base + (open + [] + [] + (indent + close))
  {
  }

  lemma FieldShape(base: Text, line: Text, indent: Text, name: Text, value: Text)
    ensures ((base + line) + (indent + name)) + value == base + ((line + indent + name) + value)
    ensures base <= (base + line) + (indent + name)
  {
  }

  lemma EscapeStep(s: Text, i: nat, sofar: Text)
    requires i < |s|
    ensures sofar + Escape(s[i..]) == (sofar + EscapeByte(s[i])) + Escape(s[i + 1..])
  {
    assert s[i..][1..] == s[i + 1..];
  }

  lemma ItemShape(base: Text, indent: Text, value: Text, line: Text)
    ensures ((base + indent) + value) + line == base + (indent + value + line)
  {
  }

  lemma ObjectShape(base: Text, open: Text, fields: Text, line: Text, indent: Text, close: Text)
    ensures ((((base + open) + fields) + line) + indent) + close == base + (open + fields + (line + indent + close))
  {
  }

  class Writer {
    var bytes: Text

    constructor ()
      ensures bytes == []
    {
      bytes := [];
    }

    method Push(c: byte)
      modifies this
      ensures bytes == old(bytes) + [c]
    {
      bytes := bytes + [c];
    }

    method Extend(t: Text)
      modifies this
      ensures bytes == old(bytes) + t
    {
      bytes := bytes + t;
    }

    method Truncate(n: nat)
      requires n <= |bytes|
      modifies this
      ensures bytes == old(bytes)[..n]
    {
      bytes := bytes[..n];
    }

    method Pop()
      requires bytes != []
      modifies this
      ensures bytes == old(bytes)[..|old(bytes)| - 1]
    {
      bytes := bytes[..|bytes| - 1];
    }

    method NewLine(fmt: bool)
      modifies this
      ensures bytes == old(bytes) + Line(fmt)
    {
      if fmt {
        Push(J.NEWLINE);
      }
    }

    method Space(fmt: bool, n: nat)
      modifies this
      ensures bytes == old(bytes) + Indent(fmt, n)
    {
      if fmt {
        for i := 0 to n
          invariant bytes == old(bytes) + Indent(fmt, i)
        {
          Push(J.BLANK);
          Push(J.BLANK);
        }
      }
    }

    method EncodeByte(c: byte)
      modifies this
      ensures bytes == old(bytes) + EscapeByte(c)
    {
      var esc := EscapeOf(c);
      if esc == 0 {
        Push(c);
      } else {
        Push(J.BACKSLASH);
        Push(esc);
        if esc == 117 {
          Push(48);
          Push(48);
          Push(HexUpper(c as int / 16));
          Push(HexUpper(c as int % 16));
        }
      }
    }

    method EncodeChars(s: Text)
      modifies this
      ensures bytes == old(bytes) + Escape(s)
    {
      assert s[0..] == s;
      for i := 0 to |s|
        invariant bytes + Escape(s[i..]) == old(bytes) + Escape(s)
      {
        EscapeStep(s, i, bytes);
        EncodeByte(s[i]);
      }
    }

    method EncodeString(s: Text)
      modifies this
      ensures bytes == old(bytes) + StringText(s)
    {
      Push(J.QUOTE);
      EncodeChars(s);
      Push(J.QUOTE);
    }

    method EncodeOne(h: Heap, v: LuaValue, depth: nat, fmt: bool, o: Options) returns (ok: bool)
      requires depth <= MAX_DEPTH
      modifies this
      ensures Wrote(old(bytes), bytes, ok, ValueText(h, o, fmt, v, depth))
      decreases MAX_DEPTH - depth, 1
    {
      ok := true;
      match v
      case Boolean(on) => if on { Extend(J.TRUE); } else { Extend(J.FALSE); }
      case Float(text, _) => Extend(text);
      case Integer(n) => Extend(Signed(n));
      case String(s) => EncodeString(s);
      case Table(r) => ok := EncodeTable(h, At(h, r), depth, fmt, o);
      case Nil => Extend(J.NULL);
      case LightUserData(isNull) => if isNull { Extend(J.NULL); }
      case Other => ok := false;
    }

    method EncodeTable(h: Heap, t: LuaTable, enclosing: nat, fmt: bool, o: Options) returns (ok: bool)
      requires enclosing <= MAX_DEPTH
      modifies this
      ensures Wrote(old(bytes), bytes, ok, if enclosing == MAX_DEPTH then None else TableText(h, o, fmt, t, enclosing + 1))
      decreases MAX_DEPTH - enclosing, 0
    {
      var depth := enclosing + 1;
      if depth > MAX_DEPTH {
        return false;
      }
      var (isArray, size) := ArrayShape(t);
      if isArray {
        ok := EncodeArray(h, t, size, depth, fmt, o);
      } else {
        ok := EncodeObject(h, t, depth, fmt, o);
      }
    }

    /** A value, its line ended. */
    method EncodeItem(h: Heap, v: LuaValue, depth: nat, fmt: bool, o: Options, ghost before: Text) returns (ok: bool)
      requires 0 < depth <= MAX_DEPTH && bytes == before + Indent(fmt, depth)
      modifies this
      ensures Wrote(before, bytes, ok, ItemText(h, o, fmt, v, depth))
      decreases MAX_DEPTH - depth, 2
    {
      ok := EncodeOne(h, v, depth, fmt, o);
      if ok {
        NewLine(fmt);
        ItemShape(before, Indent(fmt, depth), ValueText(h, o, fmt, v, depth).value, Line(fmt));
      }
    }

    /** What comes before an item. */
    method EncodeLead(i: nat, depth: nat, fmt: bool)
      modifies this
      ensures bytes == Separated(old(bytes), i) + Indent(fmt, depth)
    {
      if i > 0 {
        Push(J.COMMA);
      }
      Space(fmt, depth);
    }

    /** Writes items until one fails or there is a hole that matters. */
    method EncodeItems(h: Heap, t: LuaTable, size: nat, depth: nat, fmt: bool, o: Options) returns (r: Progress)
      requires 0 < depth <= MAX_DEPTH
      modifies this
      ensures old(bytes) <= bytes
      ensures r == ProgressOf(ItemsToStop(h, o, fmt, Slots(t, size), depth), Stop(o, Slots(t, size)), size)
      ensures r == Done ==>
        bytes == Opened(old(bytes), if size == 0 then [] else Line(fmt), ItemsToStop(h, o, fmt, Slots(t, size), depth)).value
      decreases MAX_DEPTH - depth, 3
    {
      ghost var items := Slots(t, size)[..Stop(o, Slots(t, size))];
      ghost var base := bytes;
      ghost var total := Opened(base, Line(fmt), ItemsText(h, o, fmt, items, depth));
      if size == 0 {
        return Done;
      }
      NewLine(fmt);
      ghost var sofar := bytes;
      var i := 0;
      while i < size
        invariant i <= |items| && base <= bytes
        invariant bytes == sofar
        invariant total == After(sofar, ItemsFrom(h, o, fmt, items, depth, i))
      {
        var val := Get(t, i + 1);
        EncodeLead(i, depth, fmt);
        HoleIs(o, t, size, i);
        if val == Nil && !o.sparse {
          return Hole;
        }
        ItemsStep(h, o, fmt, items, depth, i, sofar);
        var ok := EncodeItem(h, val, depth, fmt, o, Separated(sofar, i));
        if !ok {
          return Failed;
        }
        sofar := bytes;
        i := i + 1;
      }
      r := Done;
    }

    method EncodeArray(h: Heap, t: LuaTable, size: nat, depth: nat, fmt: bool, o: Options) returns (ok: bool)
      requires 0 < depth <= MAX_DEPTH
      modifies this
      ensures Wrote(old(bytes), bytes, ok, SlotsText(h, o, fmt, t.entries, Slots(t, size), depth))
      decreases MAX_DEPTH - depth, 5
    {
      var bsize := |bytes|;
      SlotsTextIs(h, o, fmt, t.entries, Slots(t, size), depth);
      Push(J.OPEN_BRACKET);
      var r := EncodeItems(h, t, size, depth, fmt, o);
      if r == Failed {
        return false;
      }
      if r == Hole {
        Truncate(bsize);
        ok := EncodeObject(h, t, depth, fmt, o);
        return;
      }
      ghost var items := ItemsToStop(h, o, fmt, Slots(t, size), depth).value;
      CloseShape(old(bytes), [J.OPEN_BRACKET], if size == 0 then [] else Line(fmt), items, Indent(fmt, depth - 1), [J.CLOSE_BRACKET]);
      Space(fmt, depth - 1);
      Push(J.CLOSE_BRACKET);
      ok := true;
    }

    /** A name with its colon. */
    method EncodeName(key: Text, depth: nat, fmt: bool)
      modifies this
      ensures bytes == old(bytes) + (Indent(fmt, depth) + NameText(key, fmt))
    {
      Space(fmt, depth);
      Push(J.QUOTE);
      Extend(key);
      Extend([J.QUOTE, J.COLON]);
      if fmt {
        Push(J.BLANK);
      }
    }

    method EncodeField(h: Heap, e: Entry, depth: nat, fmt: bool, o: Options) returns (ok: bool)
      requires 0 < depth <= MAX_DEPTH
      modifies this
      ensures Wrote(old(bytes), bytes, ok, FieldText(h, o, fmt, e, depth))
      decreases MAX_DEPTH - depth, 2
    {
      NewLine(fmt);
      var key: Text := [];
      match e.key {
        case String(s) => key := s;
        case Integer(n) =>
          if !o.numberKey {
            return false;
          }
          key := Signed(n);
        case _ => return true;
      }
      EncodeName(key, depth, fmt);
      ok := EncodeOne(h, e.value, depth, fmt, o);
      if ok {
        FieldShape(old(bytes), Line(fmt), Indent(fmt, depth), NameText(key, fmt), ValueText(h, o, fmt, e.value, depth).value);
      }
    }

    method EncodeFields(h: Heap, es: seq<Entry>, depth: nat, fmt: bool, o: Options) returns (ok: bool)
      requires 0 < depth <= MAX_DEPTH
      modifies this
      ensures Wrote(old(bytes), bytes, ok, FieldsText(h, o, fmt, es, depth))
      decreases MAX_DEPTH - depth, 3
    {
      ghost var base := bytes;
      ghost var total := After(base, FieldsText(h, o, fmt, es, depth));
      var i := 0;
      while i < |es|
        invariant i <= |es| && base <= bytes
        invariant total == After(bytes, FieldsFrom(h, o, fmt, es, depth, i))
      {
        FieldsStep(h, o, fmt, es, depth, i, bytes);
        if i > 0 {
          Push(J.COMMA);
        }
        ok := EncodeField(h, es[i], depth, fmt, o);
        if !ok {
          return false;
        }
        i := i + 1;
      }
      ok := true;
    }

    method EncodeObject(h: Heap, t: LuaTable, depth: nat, fmt: bool, o: Options) returns (ok: bool)
      requires 0 < depth <= MAX_DEPTH
      modifies this
      ensures Wrote(old(bytes), bytes, ok, ObjectText(h, o, fmt, t.entries, depth))
      decreases MAX_DEPTH - depth, 4
    {
      var es := t.entries;
      Push(J.OPEN_BRACE);
      ok := EncodeFields(h, es, depth, fmt, o);
      if !ok {
        return false;
      }
      ghost var fields := FieldsText(h, o, fmt, es, depth).value;
      ObjectShape(old(bytes), [J.OPEN_BRACE], fields, Line(fmt), Indent(fmt, depth - 1), [J.CLOSE_BRACE]);
      if es == [] && o.emptyAsArray {
        Pop();
        Extend([J.OPEN_BRACKET, J.CLOSE_BRACKET]);
      } else {
        if es != [] {
          NewLine(fmt);
          Space(fmt, depth - 1);
        }
        Push(J.CLOSE_BRACE);
      }
    }
  }
}
