/** What a Lua value is as JSON text and as a JSON tree. */
module JsonEncoding {
  import opened Wrappers
  import opened Bytes
  import opened LuaTables
  import J = Json

  datatype Options = Options(emptyAsArray: bool, numberKey: bool, sparse: bool)

  const DEFAULT := Options(true, true, true)
  const MAX_DEPTH := 64

  // Text

  /** The entry of the escape table: the letter after the backslash, or 0 for a byte that stands for itself. */
  function EscapeOf(c: byte): byte {
    if c == 34 || c == 92 then c
    else if c >= 32 then 0
    else if c == 8 then 98
    else if c == 9 then 116
    else if c == 10 then 110
    else if c == 12 then 102
    else if c == 13 then 114
    else 117
  }

  function HexUpper(d: int): byte
    requires 0 <= d < 16
  {
    if d < 10 then (48 + d) as byte else (55 + d) as byte
  }

  function EscapeByte(c: byte): Text {
    if EscapeOf(c) == 0 then [c]
    else if EscapeOf(c) == 117 then [92, 117, 48, 48, HexUpper(c as int / 16), HexUpper(c as int % 16)]
    else [92, EscapeOf(c)]
  }

  function Escape(s: Text): Text {
    if s == [] then [] else EscapeByte(s[0]) + Escape(s[1..])
  }

  function Line(fmt: bool): Text {
    if fmt then [J.NEWLINE] else []
  }

  function Indent(fmt: bool, n: nat): Text {
    if fmt then seq(2 * n, _ => J.BLANK) else []
  }

  function Join(a: Option<Text>, separator: Text, b: Option<Text>): Option<Text> {
    if a.None? || b.None? then None else Some(a.value + separator + b.value)
  }

  function Around(before: Text, a: Option<Text>, after: Text): Option<Text> {
    if a.None? then None else Some(before + a.value + after)
  }

  function After(before: Text, a: Option<Text>): Option<Text> {
    if a.None? then None else Some(before + a.value)
  }

  function StringText(s: Text): Text {
    [J.QUOTE] + Escape(s) + [J.QUOTE]
  }

  /** The text of a value that is inside so many tables. */
  function ValueText(h: Heap, o: Options, fmt: bool, v: LuaValue, level: nat): Option<Text>
    requires level <= MAX_DEPTH
    decreases MAX_DEPTH - level, 0, 0
  {
    match v
    case Nil => Some(J.NULL)
    case Boolean(on) => Some(if on then J.TRUE else J.FALSE)
    case Integer(n) => Some(Signed(n))
    case Float(text, _) => Some(text)
    case String(s) => Some(StringText(s))
    case LightUserData(isNull) => Some(if isNull then J.NULL else [])
    case Table(r) => if level == MAX_DEPTH then None else TableText(h, o, fmt, At(h, r), level + 1)
    case Other => None
  }

  function ItemText(h: Heap, o: Options, fmt: bool, v: LuaValue, level: nat): Option<Text>
    requires level <= MAX_DEPTH
    decreases MAX_DEPTH - level, 0, 1
  {
    Around(Indent(fmt, level), ValueText(h, o, fmt, v, level), Line(fmt))
  }

  /** Array items, with commas between them. */
  function ItemsText(h: Heap, o: Options, fmt: bool, vs: seq<LuaValue>, level: nat): Option<Text>
    requires level <= MAX_DEPTH
    decreases MAX_DEPTH - level, 1, |vs|
  {
    if vs == [] then Some([])
    else if |vs| == 1 then ItemText(h, o, fmt, vs[0], level)
    else Join(ItemText(h, o, fmt, vs[0], level), [J.COMMA], ItemsText(h, o, fmt, vs[1..], level))
  }

  function ArrayText(h: Heap, o: Options, fmt: bool, vs: seq<LuaValue>, level: nat): Option<Text>
    requires 0 < level <= MAX_DEPTH
    decreases MAX_DEPTH - level, 2, |vs|
  {
    Around([J.OPEN_BRACKET] + (if vs == [] then [] else Line(fmt)), ItemsText(h, o, fmt, vs, level),
           Indent(fmt, level - 1) + [J.CLOSE_BRACKET])
  }

  /** A key as the encoder writes it: without escapes. */
  function NameText(key: Text, fmt: bool): Text {
    [J.QUOTE] + key + [J.QUOTE, J.COLON] + if fmt then [J.BLANK] else []
  }

  /** A key that is neither a string nor an integer leaves nothing but its place. */
  function FieldText(h: Heap, o: Options, fmt: bool, e: Entry, level: nat): Option<Text>
    requires level <= MAX_DEPTH
    decreases MAX_DEPTH - level, 0, 1
  {
    match e.key
    case String(s) => After(Line(fmt) + Indent(fmt, level) + NameText(s, fmt), ValueText(h, o, fmt, e.value, level))
    case Integer(n) =>
      if !o.numberKey then None
      else After(Line(fmt) + Indent(fmt, level) + NameText(Signed(n), fmt), ValueText(h, o, fmt, e.value, level))
    case _ => Some(Line(fmt))
  }

  function FieldsText(h: Heap, o: Options, fmt: bool, es: seq<Entry>, level: nat): Option<Text>
    requires level <= MAX_DEPTH
    decreases MAX_DEPTH - level, 1, |es|
  {
    if es == [] then Some([])
    else if |es| == 1 then FieldText(h, o, fmt, es[0], level)
    else Join(FieldText(h, o, fmt, es[0], level), [J.COMMA], FieldsText(h, o, fmt, es[1..], level))
  }

  function ObjectText(h: Heap, o: Options, fmt: bool, es: seq<Entry>, level: nat): Option<Text>
    requires 0 < level <= MAX_DEPTH
    decreases MAX_DEPTH - level, 2, |es|
  {
    if es == [] then Some(if o.emptyAsArray then [J.OPEN_BRACKET, J.CLOSE_BRACKET] else [J.OPEN_BRACE, J.CLOSE_BRACE])
    else
      Around([J.OPEN_BRACE], FieldsText(h, o, fmt, es, level), Line(fmt) + Indent(fmt, level - 1) + [J.CLOSE_BRACE])
  }

  /** The index of the first nil, or the number of values. */
  function FirstNil(vs: seq<LuaValue>): (i: nat)
    ensures i <= |vs|
    ensures i < |vs| ==> vs[i] == Nil
    ensures forall j :: 0 <= j < i ==> vs[j] != Nil
  {
    if vs == [] || vs[0] == Nil then 0 else 1 + FirstNil(vs[1..])
  }

  /** Without sparse arrays the first hole turns an array into an object, unless an item before it failed. */
  function SlotsText(h: Heap, o: Options, fmt: bool, es: seq<Entry>, vs: seq<LuaValue>, level: nat): Option<Text>
    requires 0 < level <= MAX_DEPTH
    decreases MAX_DEPTH - level, 3, 0
  {
    if o.sparse || FirstNil(vs) == |vs| then ArrayText(h, o, fmt, vs, level)
    else if ItemsText(h, o, fmt, vs[..FirstNil(vs)], level).None? then None
    else ObjectText(h, o, fmt, es, level)
  }

  function TableText(h: Heap, o: Options, fmt: bool, t: LuaTable, level: nat): Option<Text>
    requires 0 < level <= MAX_DEPTH
    decreases MAX_DEPTH - level, 4, 0
  {
    var (isArray, n) := ArrayShape(t);
    if isArray then SlotsText(h, o, fmt, t.entries, Slots(t, n), level) else ObjectText(h, o, fmt, t.entries, level)
  }

  // Trees

  /** The tree of a value that is inside so many tables; strings have to be UTF-8. */
  function Tree(h: Heap, o: Options, v: LuaValue, level: nat): Option<J.Json>
    requires level <= MAX_DEPTH
    decreases MAX_DEPTH - level, 0, 0
  {
    match v
    case Nil => Some(J.Null)
    case Boolean(on) => Some(J.Bool(on))
    case Integer(n) => Some(J.Number(n))
    case Float(text, finite) => if finite then Some(J.Real(text)) else None
    case String(s) => if J.Utf8(s) then Some(J.String(s)) else None
    case LightUserData(isNull) => if isNull then Some(J.Null) else None
    case Table(r) => if level == MAX_DEPTH then None else TableTree(h, o, At(h, r), level + 1)
    case Other => None
  }

  function ItemsTree(h: Heap, o: Options, vs: seq<LuaValue>, level: nat): Option<seq<J.Json>>
    requires level <= MAX_DEPTH
    decreases MAX_DEPTH - level, 1, |vs|
  {
    if vs == [] then Some([]) else Chain(Tree(h, o, vs[0], level), ItemsTree(h, o, vs[1..], level))
  }

  function Chain(a: Option<J.Json>, b: Option<seq<J.Json>>): Option<seq<J.Json>> {
    if a.None? || b.None? then None else Some([a.value] + b.value)
  }

  function Name(o: Options, key: LuaValue): Option<Text> {
    match key
    case String(s) => if J.Utf8(s) then Some(s) else None
    case Integer(n) => if o.numberKey then Some(Signed(n)) else None
    case _ => None
  }

  /** Of entries with the same name the last one stays. */
  function FieldsTree(h: Heap, o: Options, es: seq<Entry>, level: nat): Option<map<Text, J.Json>>
    requires level <= MAX_DEPTH
    decreases MAX_DEPTH - level, 1, |es|
  {
    if es == [] then Some(map[])
    else Merge(Name(o, es[0].key), Tree(h, o, es[0].value, level), FieldsTree(h, o, es[1..], level))
  }

  function Merge(name: Option<Text>, j: Option<J.Json>, m: Option<map<Text, J.Json>>): Option<map<Text, J.Json>> {
    if name.None? || j.None? || m.None? then None else Some(map[name.value := j.value] + m.value)
  }

  function TableTree(h: Heap, o: Options, t: LuaTable, level: nat): Option<J.Json>
    requires level <= MAX_DEPTH
    decreases MAX_DEPTH - level, 2, 0
  {
    var (isArray, n) := ArrayShape(t);
    var vs := Slots(t, n);
    if isArray && (o.sparse || FirstNil(vs) == n) then AsArray(ItemsTree(h, o, vs, level))
    else if t.entries == [] && o.emptyAsArray then Some(J.Array([]))
    else AsObject(FieldsTree(h, o, t.entries, level))
  }

  function AsArray(js: Option<seq<J.Json>>): Option<J.Json> {
    if js.None? then None else Some(J.Array(js.value))
  }

  function AsObject(m: Option<map<Text, J.Json>>): Option<J.Json> {
    if m.None? then None else Some(J.Object(m.value))
  }

  /** The slow way to JSON: encode with the defaults, compactly, and parse the text. */
  function EncodedAndParsed(h: Heap, v: LuaValue): Option<J.Json> {
    var t := ValueText(h, DEFAULT, false, v, 0);
    if t.None? then None else J.Parse(t.value)
  }
}
