/** JSON values and a reader of JSON text after RFC 8259, sections 2 to 8. */
module Json {
  import opened Wrappers
  import opened Bytes

  datatype Json =
    | Null
    | Bool(on: bool)
    | Number(number: int)
    | Real(text: Text) // a number with a fraction or an exponent
    | String(text: Text)
    | Array(items: seq<Json>)
    | Object(fields: map<Text, Json>)

  /** What was read, and what is left after it. */
  datatype Parsed<+T> = Parsed(value: T, rest: Text)

  const QUOTE: byte := 34
  const COMMA: byte := 44
  const COLON: byte := 58
  const BACKSLASH: byte := 92
  const OPEN_BRACKET: byte := 91
  const CLOSE_BRACKET: byte := 93
  const OPEN_BRACE: byte := 123
  const CLOSE_BRACE: byte := 125
  const NEWLINE: byte := 10
  const BLANK: byte := 32

  const NULL: Text := [110, 117, 108, 108]
  const TRUE: Text := [116, 114, 117, 101]
  const FALSE: Text := [102, 97, 108, 115, 101]

  // UTF-8, section 4 of RFC 3629

  predicate Tail(c: byte) {
    0x80 <= c <= 0xBF
  }

  /** The length of the well-formed character that text starts with, or 0. */
  function CharLength(t: Text): (n: nat)
    ensures n <= |t|
  {
    if t == [] then 0
    else if t[0] < 0x80 then 1
    else if |t| < 2 || !Tail(t[1]) then 0
    else if 0xC2 <= t[0] <= 0xDF then 2
    else if |t| < 3 || !Tail(t[2]) then 0
    else if 0xE0 <= t[0] <= 0xEF then (if (t[0] == 0xE0 && t[1] < 0xA0) || (t[0] == 0xED && t[1] > 0x9F) then 0 else 3)
    else if |t| < 4 || !Tail(t[3]) then 0
    else if 0xF0 <= t[0] <= 0xF4 then (if (t[0] == 0xF0 && t[1] < 0x90) || (t[0] == 0xF4 && t[1] > 0x8F) then 0 else 4)
    else 0
  }

  predicate Utf8(t: Text) {
    t == [] || (CharLength(t) > 0 && Utf8(t[CharLength(t)..]))
  }

  /** The UTF-8 of a code point. */
  function CharText(c: nat): Text
    requires c < 0x11_0000
  {
    if c < 0x80 then [c as byte]
    else if c < 0x800 then [(0xC0 + c / 0x40) as byte, (0x80 + c % 0x40) as byte]
    else if c < 0x1_0000 then [(0xE0 + c / 0x1000) as byte, (0x80 + c / 0x40 % 0x40) as byte, (0x80 + c % 0x40) as byte]
    else [(0xF0 + c / 0x4_0000) as byte, (0x80 + c / 0x1000 % 0x40) as byte, (0x80 + c / 0x40 % 0x40) as byte, (0x80 + c % 0x40) as byte]
  }

  // White space, section 2

  predicate IsSpace(c: byte) {
    c == 32 || c == 9 || c == 10 || c == 13
  }

  function Skip(t: Text): (r: Text)
    ensures |r| <= |t|
    ensures r != [] ==> !IsSpace(r[0])
  {
    if t != [] && IsSpace(t[0]) then Skip(t[1..]) else t
  }

  predicate StartsWith(t: Text, c: byte) {
    t != [] && t[0] == c
  }

  // Strings, section 7

  function HexDigit(c: byte): (d: Option<nat>)
    ensures d.Some? ==> d.value < 16
  {
    if IsDigit(c) then Some(c as int - 48)
    else if 65 <= c <= 70 then Some(c as int - 55)
    else if 97 <= c <= 102 then Some(c as int - 87)
    else None
  }

  /** Four hexadecimal digits. */
  function Hex4(t: Text): (n: Option<nat>)
    ensures n.Some? ==> |t| >= 4 && n.value < 0x1_0000
  {
    if |t| < 4 then None
    else
      var (a, b, c, d) := (HexDigit(t[0]), HexDigit(t[1]), HexDigit(t[2]), HexDigit(t[3]));
      if a.None? || b.None? || c.None? || d.None? then None
      else Some(0x1000 * a.value + 0x100 * b.value + 0x10 * c.value + d.value)
  }

  /** The character that a two-character escape stands for. */
  function Unescape(c: byte): Option<byte> {
    if c == QUOTE || c == BACKSLASH || c == 47 then Some(c)
    else if c == 98 then Some(8)
    else if c == 102 then Some(12)
    else if c == 110 then Some(10)
    else if c == 114 then Some(13)
    else if c == 116 then Some(9)
    else None
  }

  /** The text after a backslash: the character it stands for, surrogate pairs put together. */
  function ParseEscape(t: Text): (p: Option<Parsed<Text>>)
    ensures p.Some? ==> |p.value.rest| < |t|
  {
    if t == [] then None
    else if t[0] != 117 then (if Unescape(t[0]).Some? then Some(Parsed([Unescape(t[0]).value], t[1..])) else None)
    else
      var high := Hex4(t[1..]);
      if high.None? || 0xDC00 <= high.value < 0xE000 then None
      else if high.value < 0xD800 || 0xE000 <= high.value then Some(Parsed(CharText(high.value), t[5..]))
      else if |t| < 7 || t[5] != BACKSLASH || t[6] != 117 then None
      else
        var low := Hex4(t[7..]);
        if low.None? || !(0xDC00 <= low.value < 0xE000) then None
        else Some(Parsed(CharText(0x1_0000 + 0x400 * (high.value - 0xD800) + (low.value - 0xDC00)), t[11..]))
  }

  function Prefixed(text: Text, p: Option<Parsed<Text>>): Option<Parsed<Text>> {
    if p.Some? then Some(Parsed(text + p.value.value, p.value.rest)) else None
  }

  /** The text after an opening quote, up to the closing one. */
  function ParseChars(t: Text): (p: Option<Parsed<Text>>)
    ensures p.Some? ==> |p.value.rest| < |t|
    decreases |t|
  {
    if t == [] || t[0] < 32 then None
    else if t[0] == QUOTE then Some(Parsed([], t[1..]))
    else if t[0] != BACKSLASH then Prefixed([t[0]], ParseChars(t[1..]))
    else
      var e := ParseEscape(t[1..]);
      if e.None? then None else Prefixed(e.value.value, ParseChars(e.value.rest))
  }

  /** A string must be UTF-8, section 8.1. */
  function ParseString(t: Text): (p: Option<Parsed<Text>>)
    ensures p.Some? ==> |p.value.rest| < |t|
  {
    if !StartsWith(t, QUOTE) then None
    else
      var p := ParseChars(t[1..]);
      if p.Some? && Utf8(p.value.value) then p else None
  }

  // Numbers, section 6

  function DigitRun(t: Text): (n: nat)
    ensures n <= |t|
    ensures AllDigits(t[..n])
    ensures n < |t| ==> !IsDigit(t[n])
  {
    if t == [] || !IsDigit(t[0]) then 0 else 1 + DigitRun(t[1..])
  }

  /** The length of an optional fraction, or none for one that is cut short. */
  function FractionRun(t: Text): (n: Option<nat>)
    ensures n.Some? ==> n.value <= |t|
  {
    if !StartsWith(t, 46) then Some(0)
    else if DigitRun(t[1..]) == 0 then None
    else Some(1 + DigitRun(t[1..]))
  }

  function ExponentRun(t: Text): (n: Option<nat>)
    ensures n.Some? ==> n.value <= |t|
  {
    if t == [] || (t[0] != 69 && t[0] != 101) then Some(0)
    else
      var sign := if |t| > 1 && (t[1] == PLUS || t[1] == MINUS) then 2 else 1;
      if DigitRun(t[sign..]) == 0 then None
      else Some(sign + DigitRun(t[sign..]))
  }

  /** A number without its sign. */
  function ParseMagnitude(t: Text): (p: Option<Parsed<Json>>)
    ensures p.Some? ==> |p.value.rest| < |t|
  {
    var digits := DigitRun(t);
    if digits == 0 || (digits > 1 && t[0] == 48) then None
    else
      var fraction := FractionRun(t[digits..]);
      if fraction.None? then None
      else
        var exponent := ExponentRun(t[digits + fraction.value..]);
        if exponent.None? then None
        else if fraction.value + exponent.value == 0 then Some(Parsed(Number(Value(t[..digits])), t[digits..]))
        else
          var all := digits + fraction.value + exponent.value;
          Some(Parsed(Real(t[..all]), t[all..]))
  }

  function Negated(j: Json): Json {
    if j.Number? then Number(-j.number) else if j.Real? then Real([MINUS] + j.text) else j
  }

  function AllNegated(p: Option<Parsed<Json>>): Option<Parsed<Json>> {
    if p.Some? then Some(Parsed(Negated(p.value.value), p.value.rest)) else None
  }

  function ParseNumber(t: Text): (p: Option<Parsed<Json>>)
    ensures p.Some? ==> |p.value.rest| < |t|
  {
    if StartsWith(t, MINUS) then AllNegated(ParseMagnitude(t[1..])) else ParseMagnitude(t)
  }

  // Values, sections 3 to 5

  function ParseLiteral(t: Text, literal: Text, j: Json): (p: Option<Parsed<Json>>)
    requires literal != []
    ensures p.Some? ==> |p.value.rest| < |t|
  {
    if literal <= t then Some(Parsed(j, t[|literal|..])) else None
  }

  function AsString(p: Option<Parsed<Text>>): Option<Parsed<Json>> {
    if p.Some? then Some(Parsed(String(p.value.value), p.value.rest)) else None
  }

  function ParseValue(text: Text): (p: Option<Parsed<Json>>)
    ensures p.Some? ==> |p.value.rest| < |text|
    decreases |text|, 1
  {
    var t := Skip(text);
    if t == [] then None
    else if t[0] == QUOTE then AsString(ParseString(t))
    else if t[0] == OPEN_BRACKET then ParseArray(t[1..])
    else if t[0] == OPEN_BRACE then ParseObject(t[1..])
    else if t[0] == 110 then ParseLiteral(t, NULL, Null)
    else if t[0] == 116 then ParseLiteral(t, TRUE, Bool(true))
    else if t[0] == 102 then ParseLiteral(t, FALSE, Bool(false))
    else ParseNumber(t)
  }

  /** The text after an opening bracket. */
  function ParseArray(text: Text): (p: Option<Parsed<Json>>)
    ensures p.Some? ==> |p.value.rest| < |text|
    decreases |text|, 3
  {
    var t := Skip(text);
    if StartsWith(t, CLOSE_BRACKET) then Some(Parsed(Array([]), t[1..]))
    else
      var p := ParseItems(t);
      if p.Some? then Some(Parsed(Array(p.value.value), p.value.rest)) else None
  }

  /** One item and those that follow it, up to the closing bracket. */
  function ParseItems(text: Text): (p: Option<Parsed<seq<Json>>>)
    ensures p.Some? ==> |p.value.rest| < |text|
    decreases |text|, 2
  {
    var p := ParseValue(text);
    if p.None? then None else MoreItems(p.value.value, Skip(p.value.rest), |text|)
  }

  function MoreItems(first: Json, t: Text, bound: nat): (p: Option<Parsed<seq<Json>>>)
    requires |t| < bound
    ensures p.Some? ==> |p.value.rest| < bound
    decreases bound, 0
  {
    if StartsWith(t, CLOSE_BRACKET) then Some(Parsed([first], t[1..]))
    else if !StartsWith(t, COMMA) then None
    else
      var p := ParseItems(t[1..]);
      if p.Some? then Some(Parsed([first] + p.value.value, p.value.rest)) else None
  }

  /** The text after an opening brace. */
  function ParseObject(text: Text): (p: Option<Parsed<Json>>)
    ensures p.Some? ==> |p.value.rest| < |text|
    decreases |text|, 3
  {
    var t := Skip(text);
    if StartsWith(t, CLOSE_BRACE) then Some(Parsed(Object(map[]), t[1..]))
    else
      var p := ParseFields(t);
      if p.Some? then Some(Parsed(Object(p.value.value), p.value.rest)) else None
  }

  /** A name and the colon after it. */
  function ParseName(text: Text): (p: Option<Parsed<Text>>)
    ensures p.Some? ==> |p.value.rest| < |text|
  {
    var p := ParseString(Skip(text));
    if p.None? || !StartsWith(Skip(p.value.rest), COLON) then None
    else Some(Parsed(p.value.value, Skip(p.value.rest)[1..]))
  }

  /** One field and those that follow it, up to the closing brace; of fields with the same name the last one stays. */
  function ParseFields(text: Text): (p: Option<Parsed<map<Text, Json>>>)
    ensures p.Some? ==> |p.value.rest| < |text|
    decreases |text|, 2
  {
    var name := ParseName(text);
    if name.None? then None
    else
      var p := ParseValue(name.value.rest);
      if p.None? then None else MoreFields(map[name.value.value := p.value.value], Skip(p.value.rest), |text|)
  }

  function MoreFields(first: map<Text, Json>, t: Text, bound: nat): (p: Option<Parsed<map<Text, Json>>>)
    requires |t| < bound
    ensures p.Some? ==> |p.value.rest| < bound
    decreases bound, 0
  {
    if StartsWith(t, CLOSE_BRACE) then Some(Parsed(first, t[1..]))
    else if !StartsWith(t, COMMA) then None
    else
      var p := ParseFields(t[1..]);
      if p.Some? then Some(Parsed(first + p.value.value, p.value.rest)) else None
  }

  /** A whole text holds one value and white space. */
  function Parse(text: Text): Option<Json> {
    var p := ParseValue(text);
    if p.Some? && Skip(p.value.rest) == [] then Some(p.value.value) else None
  }
}
