/** Parsing the encoder's text gives the tree of the value it encoded. */
module JsonRoundTrip {
  import opened Wrappers
  import opened Bytes
  import opened LuaTables
  import opened JsonEncoding
  import opened JsonWritten
  import J = Json

  // White space

  predicate AllSpace(w: Text) {
    forall i :: 0 <= i < |w| ==> J.IsSpace(w[i])
  }

  lemma {:induction false} SkipsSpace(w: Text, t: Text)
    requires AllSpace(w)
    ensures J.Skip(w + t) == J.Skip(t)
  {
    if w == [] {
      assert w + t == t;
    } else {
      assert (w + t)[1..] == w[1..] + t;
      SkipsSpace(w[1..], t);
    }
  }

  lemma LayoutIsSpace(fmt: bool, n: nat)
    ensures AllSpace(Line(fmt)) && AllSpace(Indent(fmt, n)) && AllSpace(Line(fmt) + Indent(fmt, n))
  {
  }

  /** What may follow a value: the end, a comma, a closing mark or a new line. */
  predicate Ends(rest: Text) {
    rest == [] || rest[0] == J.COMMA || rest[0] == J.CLOSE_BRACKET || rest[0] == J.CLOSE_BRACE || rest[0] == J.NEWLINE
  }

  function Attach<T>(j: Option<T>, rest: Text): Option<J.Parsed<T>> {
    if j.None? then None else Some(J.Parsed(j.value, rest))
  }

  // Strings

  lemma ByteParses(c: byte, tail: Text)
    ensures J.ParseChars(EscapeByte(c) + tail) == J.Prefixed([c], J.ParseChars(tail))
  {
    var t := EscapeByte(c) + tail;
    if EscapeOf(c) == 0 {
      assert t[1..] == tail;
    } else if EscapeOf(c) == 117 {
      HexParses(c, tail);
    } else {
      LetterParses(c, tail);
    }
  }

  lemma LetterParses(c: byte, tail: Text)
    requires EscapeOf(c) != 0 && EscapeOf(c) != 117
    ensures J.ParseChars(EscapeByte(c) + tail) == J.Prefixed([c], J.ParseChars(tail))
  {
    assert (EscapeByte(c) + tail)[1..][1..] == tail;
    assert J.Unescape(EscapeOf(c)) == Some(c);
  }

  lemma HexParses(c: byte, tail: Text)
    requires EscapeOf(c) == 117
    ensures J.ParseChars(EscapeByte(c) + tail) == J.Prefixed([c], J.ParseChars(tail))
  {
    var t := EscapeByte(c) + tail;
    assert t[1..][1..] == [48, 48, HexUpper(c as int / 16), HexUpper(c as int % 16)] + tail;
    assert J.Hex4(t[1..][1..]) == Some(c as int);
    assert t[1..][5..] == tail;
  }

  lemma {:induction false} CharsParse(s: Text, rest: Text)
    ensures J.ParseChars(Escape(s) + ([J.QUOTE] + rest)) == Some(J.Parsed(s, rest))
  {
    var end := [J.QUOTE] + rest;
    if s == [] {
      assert Escape(s) + end == end;
      assert end[1..] == rest;
    } else {
      assert Escape(s) + end == EscapeByte(s[0]) + (Escape(s[1..]) + end);
      ByteParses(s[0], Escape(s[1..]) + end);
      CharsParse(s[1..], rest);
      assert [s[0]] + s[1..] == s;
    }
  }

  /** An encoded string reads back as itself, when it is UTF-8 at all. */
  lemma StringParses(s: Text, rest: Text)
    ensures J.ParseString(StringText(s) + rest) == Attach(if J.Utf8(s) then Some(s) else None, rest)
  {
    var t := StringText(s) + rest;
    assert t[1..] == Escape(s) + ([J.QUOTE] + rest);
    CharsParse(s, rest);
  }

  lemma {:induction false} PlainEscape(s: Text)
    requires PlainText(s)
    ensures Escape(s) == s
  {
    if s != [] {
      PlainEscape(s[1..]);
    }
  }

  // Numbers

  lemma {:induction false} RunOfDigits(d: Text, rest: Text)
    requires AllDigits(d) && (rest == [] || !IsDigit(rest[0]))
    ensures J.DigitRun(d + rest) == |d|
  {
    if d == [] {
      assert d + rest == rest;
    } else {
      assert (d + rest)[1..] == d[1..] + rest;
      RunOfDigits(d[1..], rest);
    }
  }

  lemma {:induction false} NoLeadingZero(n: nat)
    ensures |Digits(n)| == 1 || Digits(n)[0] != 48
  {
    if n >= 10 {
      NoLeadingZero(n / 10);
      assert Digits(n)[0] == Digits(n / 10)[0];
    }
  }

  lemma DigitsParse(n: nat, rest: Text)
    requires Ends(rest)
    ensures J.ParseMagnitude(Digits(n) + rest) == Some(J.Parsed(J.Number(n), rest))
  {
    var t := Digits(n) + rest;
    RunOfDigits(Digits(n), rest);
    NoLeadingZero(n);
    ValueOfDigits(n);
    assert t[..|Digits(n)|] == Digits(n);
    assert t[|Digits(n)|..] == rest;
  }

  lemma MinusParses(d: Text, k: int, rest: Text)
    requires J.ParseMagnitude(d + rest) == Some(J.Parsed(J.Number(k), rest))
    ensures J.ParseNumber([MINUS] + d + rest) == Some(J.Parsed(J.Number(-k), rest))
  {
    Associates([MINUS], d, rest);
    StepsIn([MINUS], d + rest);
  }

  lemma NaturalParses(n: nat, rest: Text)
    requires Ends(rest)
    ensures J.ParseNumber(Digits(n) + rest) == Some(J.Parsed(J.Number(n), rest))
  {
    DigitsParse(n, rest);
    assert IsDigit(Digits(n)[0]);
  }

  lemma NumberParses(n: int, rest: Text)
    requires Ends(rest)
    ensures J.ParseNumber(Signed(n) + rest) == Some(J.Parsed(J.Number(n), rest))
  {
    if n < 0 {
      DigitsParse(-n, rest);
      MinusParses(Digits(-n), -n, rest);
    } else {
      NaturalParses(n, rest);
    }
  }

  // How texts begin

  /** Neither white space nor a closing bracket. */
  predicate Starts(x: Text) {
    x != [] && !J.IsSpace(x[0]) && x[0] != J.CLOSE_BRACKET
  }

  lemma SkipsNothing(x: Text, rest: Text)
    requires Starts(x)
    ensures J.Skip(x + rest) == x + rest
  {
  }

  lemma SignedStarts(n: int)
    ensures Starts(Signed(n)) && (Signed(n)[0] == MINUS || IsDigit(Signed(n)[0]))
  {
    if n >= 0 {
      assert IsDigit(Digits(n)[0]);
    }
  }

  lemma SignedParses(n: int, rest: Text)
    requires Ends(rest)
    ensures J.ParseValue(Signed(n) + rest) == Some(J.Parsed(J.Number(n), rest))
  {
    SignedStarts(n);
    SkipsNothing(Signed(n), rest);
    NumberParses(n, rest);
  }

  lemma QuotedParses(s: Text, rest: Text)
    ensures J.ParseValue(StringText(s) + rest) == Attach(if J.Utf8(s) then Some(J.String(s)) else None, rest)
  {
    SkipsNothing(StringText(s), rest);
    StringParses(s, rest);
  }

  lemma LiteralParses(rest: Text)
    ensures J.ParseValue(J.NULL + rest) == Some(J.Parsed(J.Null, rest))
    ensures J.ParseValue(J.TRUE + rest) == Some(J.Parsed(J.Bool(true), rest))
    ensures J.ParseValue(J.FALSE + rest) == Some(J.Parsed(J.Bool(false), rest))
  {
    SkipsNothing(J.NULL, rest);
    SkipsNothing(J.TRUE, rest);
    SkipsNothing(J.FALSE, rest);
    assert (J.NULL + rest)[4..] == rest && (J.TRUE + rest)[4..] == rest && (J.FALSE + rest)[5..] == rest;
  }

  // Items and fields, for texts of any kind

  lemma Associates(a: Text, b: Text, c: Text)
    ensures (a + b) + c == a + (b + c)
  {
  }

  lemma Regroup(a: Text, b: Text, c: Text, d: Text, e: Text)
    ensures (a + b + c) + (d + e) == a + (b + ((c + d) + e))
    ensures ((a + b + c) + d) + e == a + (b + (c + (d + e)))
    ensures (a + b) + (c + d) == a + (b + (c + d))
  {
  }

  /** The last item: a value, white space and the closing bracket. */
  lemma LastItem(lead: Text, x: Text, w: Text, j: Option<J.Json>, rest: Text)
    requires AllSpace(lead) && AllSpace(w)
    requires J.ParseValue(x + (w + ([J.CLOSE_BRACKET] + rest))) == Attach(j, w + ([J.CLOSE_BRACKET] + rest))
    ensures J.ParseItems(lead + (x + (w + ([J.CLOSE_BRACKET] + rest)))) == Attach(Chain(j, Some([])), rest)
  {
    var after := w + ([J.CLOSE_BRACKET] + rest);
    SkipsSpace(lead, x + after);
    SkipsSpace(w, [J.CLOSE_BRACKET] + rest);
    assert J.Skip(after) == [J.CLOSE_BRACKET] + rest;
    assert ([J.CLOSE_BRACKET] + rest)[1..] == rest;
    if j.Some? {
      assert [j.value] + [] == [j.value];
    }
  }

  lemma NextItem(lead: Text, x: Text, w: Text, others: Text, j: Option<J.Json>, js: Option<seq<J.Json>>, rest: Text)
    requires AllSpace(lead) && AllSpace(w)
    requires J.ParseValue(x + (w + ([J.COMMA] + others))) == Attach(j, w + ([J.COMMA] + others))
    requires J.ParseItems(others) == Attach(js, rest)
    ensures J.ParseItems(lead + (x + (w + ([J.COMMA] + others)))) == Attach(Chain(j, js), rest)
  {
    var after := w + ([J.COMMA] + others);
    SkipsSpace(lead, x + after);
    SkipsSpace(w, [J.COMMA] + others);
    assert J.Skip(after) == [J.COMMA] + others;
    assert ([J.COMMA] + others)[1..] == others;
  }

  lemma LastField(text: Text, after: Text, w: Text, name: Option<Text>, j: Option<J.Json>, rest: Text)
    requires AllSpace(w) && after == w + ([J.CLOSE_BRACE] + rest)
    requires NamedValue(text, name, j, after)
    ensures J.ParseFields(text) == Attach(Merge(name, j, Some(map[])), rest)
  {
    SkipsSpace(w, [J.CLOSE_BRACE] + rest);
    assert J.Skip(after) == [J.CLOSE_BRACE] + rest;
    assert ([J.CLOSE_BRACE] + rest)[1..] == rest;
    if name.Some? && j.Some? {
      assert map[name.value := j.value] + map[] == map[name.value := j.value];
    }
  }

  lemma NextField(text: Text, others: Text, name: Option<Text>, j: Option<J.Json>, m: Option<map<Text, J.Json>>, rest: Text)
    requires NamedValue(text, name, j, [J.COMMA] + others)
    requires J.ParseFields(others) == Attach(m, rest)
    ensures J.ParseFields(text) == Attach(Merge(name, j, m), rest)
  {
    assert J.Skip([J.COMMA] + others) == [J.COMMA] + others;
    assert ([J.COMMA] + others)[1..] == others;
  }

  /** A name of plain characters, as the encoder writes it, with layout before it. */
  lemma NameParses(lead: Text, key: Text, fmt: bool, after: Text)
    requires AllSpace(lead) && PlainText(key)
    ensures var space := if fmt then [J.BLANK] else [];
      J.ParseName(lead + (NameText(key, fmt) + after)) == Attach(if J.Utf8(key) then Some(key) else None, space + after)
  {
    var space := if fmt then [J.BLANK] else [];
    PlainEscape(key);
    var tail := [J.COLON] + (space + after);
    assert NameText(key, fmt) + after == StringText(key) + tail;
    SkipsSpace(lead, StringText(key) + tail);
    SkipsNothing(StringText(key), tail);
    StringParses(key, tail);
    assert J.Skip(tail) == tail;
    assert tail[1..] == space + after;
  }

  lemma {:induction false} AsciiIsUtf8(t: Text)
    requires forall i :: 0 <= i < |t| ==> t[i] < 0x80
    ensures J.Utf8(t)
  {
    if t != [] {
      AsciiIsUtf8(t[1..]);
    }
  }

  lemma SignedIsPlain(n: int)
    ensures PlainText(Signed(n)) && J.Utf8(Signed(n))
  {
    var d := Digits(if n < 0 then -n else n);
    assert forall i :: 0 <= i < |d| ==> IsDigit(d[i]);
    AsciiIsUtf8(Signed(n));
  }

  lemma ValueAfterSpace(w: Text, t: Text)
    requires AllSpace(w)
    ensures J.ParseValue(w + t) == J.ParseValue(t)
  {
    SkipsSpace(w, t);
  }

  // The encoder's texts

  lemma ScalarParses(h: Heap, o: Options, fmt: bool, v: LuaValue, level: nat, rest: Text)
    requires CleanValue(v) && !v.Table? && level <= MAX_DEPTH && Ends(rest) && ValueText(h, o, fmt, v, level).Some?
    ensures J.ParseValue(ValueText(h, o, fmt, v, level).value + rest) == Attach(Seen(h, o, v, level), rest)
    ensures Starts(ValueText(h, o, fmt, v, level).value)
  {
    match v
    case Integer(n) =>
      SignedStarts(n);
      SignedParses(n, rest);
    case String(s) =>
      QuotedParses(s, rest);
    case _ =>
      LiteralParses(rest);
  }

  lemma ValueParses(h: Heap, o: Options, fmt: bool, v: LuaValue, level: nat, rest: Text)
    requires level <= MAX_DEPTH && Meets(h, o, TIDY, v, level) && Ends(rest)
    requires ValueText(h, o, fmt, v, level).Some?
    ensures J.ParseValue(ValueText(h, o, fmt, v, level).value + rest) == Attach(Seen(h, o, v, level), rest)
    ensures Starts(ValueText(h, o, fmt, v, level).value)
    decreases MAX_DEPTH - level, 0, 0
  {
    if v.Table? {
      TableParses(h, o, fmt, At(h, v.ref), level + 1, rest);
    } else {
      ScalarParses(h, o, fmt, v, level, rest);
    }
  }

  lemma TableParses(h: Heap, o: Options, fmt: bool, t: LuaTable, level: nat, rest: Text)
    requires 0 < level <= MAX_DEPTH && TableMeets(h, o, TIDY, t, level)
    requires TableText(h, o, fmt, t, level).Some?
    ensures J.ParseValue(TableText(h, o, fmt, t, level).value + rest) == Attach(SeenTable(h, o, t, level), rest)
    ensures Starts(TableText(h, o, fmt, t, level).value)
    decreases MAX_DEPTH - level, 3, 0
  {
    if AsSlots(o, t) {
      ArrayParses(h, o, fmt, Slots(t, ArrayShape(t).1), level, rest);
    } else {
      ObjectParses(h, o, fmt, t.entries, level, rest);
    }
  }

  /** Reading items passes over white space by itself. */
  lemma ItemsAfterSpace(w: Text, t: Text)
    requires AllSpace(w)
    ensures J.ParseItems(w + t) == J.ParseItems(t)
  {
    ValueAfterSpace(w, t);
    var p := J.ParseValue(t);
    if p.Some? {
      MoreItemsBound(p.value.value, J.Skip(p.value.rest), |w + t|, |t|);
    }
  }

  lemma MoreItemsBound(first: J.Json, t: Text, m: nat, n: nat)
    requires |t| < m && |t| < n
    ensures J.MoreItems(first, t, m) == J.MoreItems(first, t, n)
  {
  }

  /** The text after an opening bracket, when items follow. */
  lemma BracketParses(lead: Text, x: Text, after: Text, js: Option<seq<J.Json>>, rest: Text)
    requires AllSpace(lead) && Starts(x)
    requires J.ParseItems(x + after) == Attach(js, rest)
    ensures J.ParseArray(lead + (x + after)) == Attach(AsArray(js), rest)
  {
    SkipsSpace(lead, x + after);
    SkipsNothing(x, after);
  }

  lemma ItemStarts(h: Heap, o: Options, fmt: bool, vs: seq<LuaValue>, level: nat) returns (x: Text)
    requires 0 < level <= MAX_DEPTH && vs != [] && ItemsMeet(h, o, TIDY, vs, level)
    requires ItemsText(h, o, fmt, vs, level).Some?
    ensures Starts(x) && ItemsText(h, o, fmt, vs, level).value == Indent(fmt, level) + x
    decreases MAX_DEPTH - level, 1, 0
  {
    ValueParses(h, o, fmt, vs[0], level, []);
    var v := ValueText(h, o, fmt, vs[0], level).value;
    if |vs| == 1 {
      x := v + Line(fmt);
    } else {
      x := v + (Line(fmt) + [J.COMMA] + ItemsText(h, o, fmt, vs[1..], level).value);
      LeadShape(Indent(fmt, level), v, Line(fmt), [J.COMMA], ItemsText(h, o, fmt, vs[1..], level).value);
    }
  }

  lemma LeadShape(a: Text, b: Text, c: Text, d: Text, e: Text)
    ensures (a + b + c) + d + e == a + (b + (c + d + e))
  {
  }

  lemma OneItem(h: Heap, o: Options, fmt: bool, v: LuaValue, level: nat, lead: Text, line: Text, w: Text, rest: Text)
    requires level <= MAX_DEPTH && Meets(h, o, TIDY, v, level) && ValueText(h, o, fmt, v, level).Some?
    requires AllSpace(lead) && AllSpace(line + w) && Ends((line + w) + ([J.CLOSE_BRACKET] + rest))
    ensures J.ParseItems((lead + ValueText(h, o, fmt, v, level).value + line) + (w + ([J.CLOSE_BRACKET] + rest)))
      == Attach(Chain(Seen(h, o, v, level), Some([])), rest)
    decreases MAX_DEPTH - level, 0, 1
  {
    var x, end := ValueText(h, o, fmt, v, level).value, [J.CLOSE_BRACKET] + rest;
    ValueParses(h, o, fmt, v, level, (line + w) + end);
    LastItem(lead, x, line + w, Seen(h, o, v, level), rest);
    Regroup(lead, x, line, w, end);
  }

  lemma ItemAndMore(h: Heap, o: Options, fmt: bool, v: LuaValue, level: nat, lead: Text, line: Text,
                    items: Text, end: Text, js: Option<seq<J.Json>>, rest: Text)
    requires level <= MAX_DEPTH && Meets(h, o, TIDY, v, level) && ValueText(h, o, fmt, v, level).Some?
    requires AllSpace(lead) && AllSpace(line) && Ends(line + [J.COMMA])
    requires J.ParseItems(items + end) == Attach(js, rest)
    ensures J.ParseItems((((lead + ValueText(h, o, fmt, v, level).value + line) + [J.COMMA]) + items) + end)
      == Attach(Chain(Seen(h, o, v, level), js), rest)
    decreases MAX_DEPTH - level, 0, 1
  {
    var x, others := ValueText(h, o, fmt, v, level).value, items + end;
    var after := line + ([J.COMMA] + others);
    assert after[0] == (line + [J.COMMA])[0];
    ValueParses(h, o, fmt, v, level, after);
    NextItem(lead, x, line, others, Seen(h, o, v, level), js, rest);
    MoreShape(lead, x, line, [J.COMMA], items, end);
  }

  lemma MoreShape(a: Text, b: Text, c: Text, d: Text, e: Text, f: Text)
    ensures (((a + b + c) + d) + e) + f == a + (b + (c + (d + (e + f))))
  {
    assert (((a + b + c) + d) + e) + f == ((a + b + c) + d) + (e + f);
    Regroup(a, b, c, d, e + f);
  }

  lemma ItemsParse(h: Heap, o: Options, fmt: bool, vs: seq<LuaValue>, level: nat, rest: Text)
    requires 0 < level <= MAX_DEPTH && vs != [] && ItemsMeet(h, o, TIDY, vs, level)
    requires ItemsText(h, o, fmt, vs, level).Some?
    ensures J.ParseItems(ItemsText(h, o, fmt, vs, level).value + (Indent(fmt, level - 1) + ([J.CLOSE_BRACKET] + rest)))
      == Attach(SeenItems(h, o, vs, level), rest)
    decreases MAX_DEPTH - level, 1, |vs|
  {
    LayoutIsSpace(fmt, level);
    LayoutIsSpace(fmt, level - 1);
    LineEnds(fmt, level - 1, [J.CLOSE_BRACKET] + rest);
    var lead, line, w := Indent(fmt, level), Line(fmt), Indent(fmt, level - 1);
    if |vs| == 1 {
      OneItem(h, o, fmt, vs[0], level, lead, line, w, rest);
    } else {
      ItemsParse(h, o, fmt, vs[1..], level, rest);
      var items := ItemsText(h, o, fmt, vs[1..], level).value;
      ItemAndMore(h, o, fmt, vs[0], level, lead, line, items, w + ([J.CLOSE_BRACKET] + rest), SeenItems(h, o, vs[1..], level), rest);
    }
  }

  lemma LineEnds(fmt: bool, n: nat, end: Text)
    requires end != [] && Ends(end)
    ensures AllSpace(Line(fmt) + Indent(fmt, n)) && Ends((Line(fmt) + Indent(fmt, n)) + end) && Ends(Line(fmt) + [J.COMMA])
  {
  }

  lemma ArrayParses(h: Heap, o: Options, fmt: bool, vs: seq<LuaValue>, level: nat, rest: Text)
    requires 0 < level <= MAX_DEPTH && ItemsMeet(h, o, TIDY, vs, level)
    requires ArrayText(h, o, fmt, vs, level).Some?
    ensures J.ParseValue(ArrayText(h, o, fmt, vs, level).value + rest) == Attach(AsArray(SeenItems(h, o, vs, level)), rest)
    ensures Starts(ArrayText(h, o, fmt, vs, level).value)
    decreases MAX_DEPTH - level, 2, |vs|
  {
    LayoutIsSpace(fmt, level);
    LayoutIsSpace(fmt, level - 1);
    var line, lead, w := Line(fmt), Indent(fmt, level), Indent(fmt, level - 1);
    if vs == [] {
      EmptyArrayParses(w, rest);
    } else {
      var x := ItemStarts(h, o, fmt, vs, level);
      ItemsParse(h, o, fmt, vs, level, rest);
      FullArrayParses(line, lead, x, w, SeenItems(h, o, vs, level), rest);
    }
  }

  lemma EmptyArrayParses(w: Text, rest: Text)
    requires AllSpace(w)
    ensures J.ParseValue(([J.OPEN_BRACKET] + [] + [] + (w + [J.CLOSE_BRACKET])) + rest) == Some(J.Parsed(J.Array([]), rest))
  {
    EmptyShape([J.OPEN_BRACKET], w, [J.CLOSE_BRACKET], rest);
    StepsIn([J.OPEN_BRACKET], w + ([J.CLOSE_BRACKET] + rest));
    StepsIn([J.CLOSE_BRACKET], rest);
    SkipsSpace(w, [J.CLOSE_BRACKET] + rest);
  }

  lemma EmptyShape(open: Text, w: Text, close: Text, rest: Text)
    ensures (open + [] + [] + (w + close)) + rest == open + (w + (close + rest))
  {
    OpenShape(open, [], [], [], w, close, rest);
    assert open + [] == open && open + [] + [] + (w + close) == (open + []) + ([] + []) + (w + close);
  }

  lemma FullArrayParses(line: Text, lead: Text, x: Text, w: Text, js: Option<seq<J.Json>>, rest: Text)
    requires AllSpace(line) && AllSpace(lead) && AllSpace(w) && Starts(x)
    requires J.ParseItems((lead + x) + (w + ([J.CLOSE_BRACKET] + rest))) == Attach(js, rest)
    ensures J.ParseValue((([J.OPEN_BRACKET] + line) + (lead + x) + (w + [J.CLOSE_BRACKET])) + rest) == Attach(AsArray(js), rest)
  {
    var t := (([J.OPEN_BRACKET] + line) + (lead + x) + (w + [J.CLOSE_BRACKET])) + rest;
    var after := w + ([J.CLOSE_BRACKET] + rest);
    Regroup(lead, x, w, [J.CLOSE_BRACKET] + rest, []);
    ItemsAfterSpace(lead, x + after);
    BracketParses(line + lead, x, after, js, rest);
    OpenShape([J.OPEN_BRACKET], line, lead, x, w, [J.CLOSE_BRACKET], rest);
    StepsIn([J.OPEN_BRACKET], (line + lead) + (x + after));
  }

  lemma OpenShape(open: Text, line: Text, lead: Text, x: Text, w: Text, close: Text, rest: Text)
    ensures ((open + line) + (lead + x) + (w + close)) + rest == open + ((line + lead) + (x + (w + (close + rest))))
  {
  }

  lemma StepsIn(open: Text, t: Text)
    requires |open| == 1
    ensures (open + t)[0] == open[0] && (open + t)[1..] == t
  {
  }

  /** A field's name and value, up to what follows the value. */
  lemma FieldParses(h: Heap, o: Options, fmt: bool, e: Entry, level: nat, after: Text)
    requires 0 < level <= MAX_DEPTH && CleanKey(e.key) && Meets(h, o, TIDY, e.value, level) && Ends(after)
    requires FieldText(h, o, fmt, e, level).Some?
    ensures NamedValue(FieldText(h, o, fmt, e, level).value + after, Name(o, e.key), Seen(h, o, e.value, level), after)
    decreases MAX_DEPTH - level, 0, 1
  {
    LayoutIsSpace(fmt, level);
    var x := ValueText(h, o, fmt, e.value, level).value;
    ValueParses(h, o, fmt, e.value, level, after);
    if e.key.Integer? {
      SignedIsPlain(e.key.number);
      NamedValueParses(Line(fmt) + Indent(fmt, level), Signed(e.key.number), fmt, x, Seen(h, o, e.value, level), after);
    } else {
      NamedValueParses(Line(fmt) + Indent(fmt, level), e.key.bytes, fmt, x, Seen(h, o, e.value, level), after);
    }
  }

  /** What reading a field comes to: its name, and after the colon its value. */
  predicate NamedValue(text: Text, name: Option<Text>, j: Option<J.Json>, after: Text) {
    var p := J.ParseName(text);
    && (name.None? ==> p.None?)
    && (name.Some? ==> p.Some? && p.value.value == name.value && J.ParseValue(p.value.rest) == Attach(j, after))
  }

  lemma NamedValueParses(lead: Text, key: Text, fmt: bool, x: Text, j: Option<J.Json>, after: Text)
    requires AllSpace(lead) && PlainText(key)
    requires J.ParseValue(x + after) == Attach(j, after)
    ensures NamedValue(((lead + NameText(key, fmt)) + x) + after, if J.Utf8(key) then Some(key) else None, j, after)
  {
    var space := if fmt then [J.BLANK] else [];
    NameParses(lead, key, fmt, x + after);
    ValueAfterSpace(space, x + after);
    FieldShape(lead, NameText(key, fmt), x, after);
  }

  lemma FieldShape(a: Text, b: Text, c: Text, d: Text)
    ensures ((a + b) + c) + d == a + (b + (c + d))
  {
  }

  lemma OneField(h: Heap, o: Options, fmt: bool, e: Entry, level: nat, w: Text, rest: Text)
    requires 0 < level <= MAX_DEPTH && CleanKey(e.key) && Meets(h, o, TIDY, e.value, level)
    requires FieldText(h, o, fmt, e, level).Some?
    requires AllSpace(w) && Ends(w + ([J.CLOSE_BRACE] + rest))
    ensures J.ParseFields(FieldText(h, o, fmt, e, level).value + (w + ([J.CLOSE_BRACE] + rest)))
      == Attach(Merge(Name(o, e.key), Seen(h, o, e.value, level), Some(map[])), rest)
    decreases MAX_DEPTH - level, 0, 2
  {
    var end := w + ([J.CLOSE_BRACE] + rest);
    FieldParses(h, o, fmt, e, level, end);
    LastField(FieldText(h, o, fmt, e, level).value + end, end, w, Name(o, e.key), Seen(h, o, e.value, level), rest);
  }

  lemma FieldAndMore(h: Heap, o: Options, fmt: bool, e: Entry, level: nat, fields: Text, end: Text,
                     m: Option<map<Text, J.Json>>, rest: Text)
    requires 0 < level <= MAX_DEPTH && CleanKey(e.key) && Meets(h, o, TIDY, e.value, level)
    requires FieldText(h, o, fmt, e, level).Some?
    requires J.ParseFields(fields + end) == Attach(m, rest)
    ensures J.ParseFields((FieldText(h, o, fmt, e, level).value + [J.COMMA] + fields) + end)
      == Attach(Merge(Name(o, e.key), Seen(h, o, e.value, level), m), rest)
    decreases MAX_DEPTH - level, 0, 2
  {
    var field := FieldText(h, o, fmt, e, level).value;
    FieldParses(h, o, fmt, e, level, [J.COMMA] + (fields + end));
    NextField(field + ([J.COMMA] + (fields + end)), fields + end, Name(o, e.key), Seen(h, o, e.value, level), m, rest);
    CommaShape(field, [J.COMMA], fields, end);
  }

  lemma CommaShape(a: Text, comma: Text, b: Text, end: Text)
    ensures (a + comma + b) + end == a + (comma + (b + end))
  {
  }

  // Holes, where a key that is neither a string nor an integer was

  /** Where a name is wanted there is a comma or a closing brace. */
  lemma NoNameHere(lead: Text, c: byte, rest: Text)
    requires AllSpace(lead) && (c == J.COMMA || c == J.CLOSE_BRACE)
    ensures J.ParseFields(lead + ([c] + rest)).None?
  {
    SkipsSpace(lead, [c] + rest);
  }

  lemma LastHole(line: Text, w: Text, rest: Text)
    requires AllSpace(line) && AllSpace(w)
    ensures J.ParseFields(line + (w + ([J.CLOSE_BRACE] + rest))).None?
  {
    NoNameHere(line + w, J.CLOSE_BRACE, rest);
    Associates(line, w, [J.CLOSE_BRACE] + rest);
  }

  lemma NextHole(line: Text, fields: Text, end: Text)
    requires AllSpace(line)
    ensures J.ParseFields((line + [J.COMMA] + fields) + end).None?
  {
    NoNameHere(line, J.COMMA, fields + end);
    CommaShape(line, [J.COMMA], fields, end);
  }

  /** The hole an odd key leaves cannot be read as a field, with or without others after it. */
  lemma HoleFails(h: Heap, o: Options, fmt: bool, es: seq<Entry>, level: nat, w: Text, rest: Text)
    requires level <= MAX_DEPTH && es != [] && OddKey(es[0].key) && FieldsText(h, o, fmt, es, level).Some? && AllSpace(w)
    ensures J.ParseFields(FieldsText(h, o, fmt, es, level).value + (w + ([J.CLOSE_BRACE] + rest))).None?
    ensures SeenFields(h, o, es, level).None?
  {
    LayoutIsSpace(fmt, 0);
    assert FieldText(h, o, fmt, es[0], level) == Some(Line(fmt));
    if |es| == 1 {
      LastHole(Line(fmt), w, rest);
    } else {
      NextHole(Line(fmt), FieldsText(h, o, fmt, es[1..], level).value, w + ([J.CLOSE_BRACE] + rest));
    }
  }

  lemma FieldsParse(h: Heap, o: Options, fmt: bool, es: seq<Entry>, level: nat, w: Text, rest: Text)
    requires 0 < level <= MAX_DEPTH && es != [] && FieldsMeet(h, o, TIDY, es, level)
    requires FieldsText(h, o, fmt, es, level).Some?
    requires AllSpace(w) && Ends(w + ([J.CLOSE_BRACE] + rest))
    ensures J.ParseFields(FieldsText(h, o, fmt, es, level).value + (w + ([J.CLOSE_BRACE] + rest)))
      == Attach(SeenFields(h, o, es, level), rest)
    decreases MAX_DEPTH - level, 1, |es|
  {
    if OddKey(es[0].key) {
      HoleFails(h, o, fmt, es, level, w, rest);
    } else if |es| == 1 {
      OneField(h, o, fmt, es[0], level, w, rest);
    } else {
      LaterFieldsMeet(h, o, TIDY, es, level);
      FieldsParse(h, o, fmt, es[1..], level, w, rest);
      FieldAndMore(h, o, fmt, es[0], level, FieldsText(h, o, fmt, es[1..], level).value, w + ([J.CLOSE_BRACE] + rest),
                   SeenFields(h, o, es[1..], level), rest);
    }
  }

  /** Reading fields passes over white space by itself. */
  lemma FieldsAfterSpace(w: Text, t: Text)
    requires AllSpace(w)
    ensures J.ParseFields(w + t) == J.ParseFields(t)
  {
    SkipsSpace(w, t);
    var name := J.ParseName(t);
    if name.Some? {
      var p := J.ParseValue(name.value.rest);
      if p.Some? {
        MoreFieldsBound(map[name.value.value := p.value.value], J.Skip(p.value.rest), |w + t|, |t|);
      }
    }
  }

  lemma MoreFieldsBound(first: map<Text, J.Json>, t: Text, m: nat, n: nat)
    requires |t| < m && |t| < n
    ensures J.MoreFields(first, t, m) == J.MoreFields(first, t, n)
  {
  }

  /** What begins a first field, or follows the hole where it was. */
  predicate StartsField(x: Text) {
    Starts(x) && x[0] != J.CLOSE_BRACE
  }

  /** The text after an opening brace, when fields follow. */
  lemma BraceParses(lead: Text, x: Text, after: Text, m: Option<map<Text, J.Json>>, rest: Text)
    requires AllSpace(lead) && StartsField(x)
    requires J.ParseFields(x + after) == Attach(m, rest)
    ensures J.ParseObject(lead + (x + after)) == Attach(AsObject(m), rest)
  {
    SkipsSpace(lead, x + after);
    SkipsNothing(x, after);
  }

  /** How the text of fields begins: with layout, then a quotation mark or what follows a hole. */
  lemma FieldStarts(h: Heap, o: Options, fmt: bool, es: seq<Entry>, level: nat) returns (lead: Text, x: Text)
    requires 0 < level <= MAX_DEPTH && es != [] && !LoneOdd(es) && FieldsText(h, o, fmt, es, level).Some?
    ensures AllSpace(lead) && StartsField(x) && FieldsText(h, o, fmt, es, level).value == lead + x
  {
    LayoutIsSpace(fmt, level);
    var more := if |es| == 1 then [] else [J.COMMA] + FieldsText(h, o, fmt, es[1..], level).value;
    if OddKey(es[0].key) {
      lead, x := Line(fmt), more;
    } else {
      var v := ValueText(h, o, fmt, es[0].value, level).value;
      lead, x := Line(fmt) + Indent(fmt, level), NameText(Written(es[0].key), fmt) + v + more;
      HeadShape(lead, NameText(Written(es[0].key), fmt), v, more);
      assert NameText(Written(es[0].key), fmt) + v + [] == NameText(Written(es[0].key), fmt) + v;
    }
  }

  lemma HeadShape(a: Text, b: Text, c: Text, more: Text)
    ensures ((a + b) + c) + more == a + (b + c + more)
    ensures (a + b) + c == a + (b + c)
    ensures |more| > 0 ==> ((a + b) + c) + [more[0]] + more[1..] == a + (b + c + more)
  {
  }

  lemma ObjectParses(h: Heap, o: Options, fmt: bool, es: seq<Entry>, level: nat, rest: Text)
    requires 0 < level <= MAX_DEPTH && FieldsMeet(h, o, TIDY, es, level)
    requires ObjectText(h, o, fmt, es, level).Some?
    ensures J.ParseValue(ObjectText(h, o, fmt, es, level).value + rest)
      == Attach(SeenObject(h, o, es, level), rest)
    ensures Starts(ObjectText(h, o, fmt, es, level).value)
    decreases MAX_DEPTH - level, 2, |es|
  {
    if es == [] {
      EmptyObjectParses(rest);
    } else if LoneOdd(es) {
      HollowObjectParses(h, o, fmt, es, level, rest);
    } else {
      FilledObjectParses(h, o, fmt, es, level, Line(fmt) + Indent(fmt, level - 1), rest);
    }
  }

  /** A key that leaves no name, on its own, leaves an empty object. */
  lemma HollowObjectParses(h: Heap, o: Options, fmt: bool, es: seq<Entry>, level: nat, rest: Text)
    requires LoneOdd(es) && 0 < level <= MAX_DEPTH
    ensures ObjectText(h, o, fmt, es, level).Some? && Starts(ObjectText(h, o, fmt, es, level).value)
    ensures J.ParseValue(ObjectText(h, o, fmt, es, level).value + rest) == Some(J.Parsed(J.Object(map[]), rest))
  {
    LayoutIsSpace(fmt, level - 1);
    assert FieldText(h, o, fmt, es[0], level) == Some(Line(fmt));
    assert FieldsText(h, o, fmt, es, level) == Some(Line(fmt));
    EmptyBraces(Line(fmt), Line(fmt) + Indent(fmt, level - 1), rest);
  }

  lemma EmptyBraces(line: Text, w: Text, rest: Text)
    requires AllSpace(line) && AllSpace(w)
    ensures J.ParseValue(([J.OPEN_BRACE] + line + (w + [J.CLOSE_BRACE])) + rest) == Some(J.Parsed(J.Object(map[]), rest))
  {
    var inside := (line + w) + ([J.CLOSE_BRACE] + rest);
    SkipsSpace(line + w, [J.CLOSE_BRACE] + rest);
    assert ([J.CLOSE_BRACE] + rest)[1..] == rest;
    assert J.ParseObject(inside) == Some(J.Parsed(J.Object(map[]), rest));
    OpensObject(inside);
    assert ([J.OPEN_BRACE] + line + (w + [J.CLOSE_BRACE])) + rest == [J.OPEN_BRACE] + inside;
  }

  lemma FilledObjectParses(h: Heap, o: Options, fmt: bool, es: seq<Entry>, level: nat, w: Text, rest: Text)
    requires 0 < level <= MAX_DEPTH && es != [] && !LoneOdd(es) && FieldsMeet(h, o, TIDY, es, level)
    requires FieldsText(h, o, fmt, es, level).Some?
    requires w == Line(fmt) + Indent(fmt, level - 1)
    ensures J.ParseValue(([J.OPEN_BRACE] + FieldsText(h, o, fmt, es, level).value + (w + [J.CLOSE_BRACE])) + rest)
      == Attach(AsObject(SeenFields(h, o, es, level)), rest)
    decreases MAX_DEPTH - level, 1, |es| + 1
  {
    LayoutIsSpace(fmt, level);
    LineEnds(fmt, level - 1, [J.CLOSE_BRACE] + rest);
    var lead, x := FieldStarts(h, o, fmt, es, level);
    FieldsParse(h, o, fmt, es, level, w, rest);
    FullObjectParses(lead, x, w, SeenFields(h, o, es, level), rest);
  }

  lemma EmptyObjectParses(rest: Text)
    ensures J.ParseValue([J.OPEN_BRACKET, J.CLOSE_BRACKET] + rest) == Some(J.Parsed(J.Array([]), rest))
    ensures J.ParseValue([J.OPEN_BRACE, J.CLOSE_BRACE] + rest) == Some(J.Parsed(J.Object(map[]), rest))
  {
    assert ([J.OPEN_BRACKET, J.CLOSE_BRACKET] + rest)[1..][1..] == rest;
    assert ([J.OPEN_BRACE, J.CLOSE_BRACE] + rest)[1..][1..] == rest;
  }

  lemma FullObjectParses(lead: Text, x: Text, w: Text, m: Option<map<Text, J.Json>>, rest: Text)
    requires AllSpace(lead) && AllSpace(w) && StartsField(x)
    requires J.ParseFields((lead + x) + (w + ([J.CLOSE_BRACE] + rest))) == Attach(m, rest)
    ensures J.ParseValue(([J.OPEN_BRACE] + (lead + x) + (w + [J.CLOSE_BRACE])) + rest) == Attach(AsObject(m), rest)
  {
    var after := w + ([J.CLOSE_BRACE] + rest);
    Regroup(lead, x, w, [J.CLOSE_BRACE] + rest, []);
    FieldsAfterSpace(lead, x + after);
    BraceParses(lead, x, after, m, rest);
    BraceShape(lead, x, w, rest);
    OpensObject(lead + (x + after));
  }

  lemma BraceShape(lead: Text, x: Text, w: Text, rest: Text)
    ensures ([J.OPEN_BRACE] + (lead + x) + (w + [J.CLOSE_BRACE])) + rest == [J.OPEN_BRACE] + (lead + (x + (w + ([J.CLOSE_BRACE] + rest))))
  {
    OpenShape([J.OPEN_BRACE], [], lead, x, w, [J.CLOSE_BRACE], rest);
    assert [J.OPEN_BRACE] + [] == [J.OPEN_BRACE] && [] + lead == lead;
  }

  lemma OpensObject(inside: Text)
    ensures J.ParseValue([J.OPEN_BRACE] + inside) == J.ParseObject(inside)
  {
    StepsIn([J.OPEN_BRACE], inside);
  }
}
