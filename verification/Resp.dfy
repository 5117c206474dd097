/** Redis commands: an array of bulk strings, and what a server reads from it. */
module Resp {
  import opened Wrappers
  import opened Bytes
  import opened LuaTables
  import opened JsonEncoding
  import opened JsonWriter
  import B = Buffer
  import J = Json
  import R = JsonRoundTrip
  import T = JsonTheorems
  import W = JsonWritten

  const CRLF: Text := [13, 10]
  const STAR: byte := 42
  const DOLLAR: byte := 36

  /** A bulk string, or the null bulk string. */
  type Bulk = Option<Text>

  // What arguments become

  /** The values array_iter visits: those of a table taken for an array, and none of any other. */
  function Listed(t: LuaTable): seq<LuaValue> {
    Slots(t, ArrayShape(t).1)
  }

  /** The bulk strings of an argument; tables marked __redis are spread out, as deep as the call stack lasts. */
  function Rendered(h: Heap, redis: set<Ref>, o: Options, v: LuaValue, stack: nat): Option<seq<Bulk>>
    decreases stack, 0
  {
    match v
    case Nil => Some([None])
    case Float(text, _) => Some([Some(text)])
    case Integer(n) => Some([Some(Signed(n))])
    case Boolean(on) => Some([Some(if on then J.TRUE else J.FALSE)])
    case String(bytes) => Some([Some(bytes)])
    case Table(r) =>
      if r !in redis then AsBulk(TableText(h, o, false, At(h, r), 1))
      else if stack == 0 then None
      else RenderedAll(h, redis, o, Listed(At(h, r)), stack - 1)
    case _ => None
  }

  function AsBulk(t: Option<Text>): Option<seq<Bulk>> {
    if t.None? then None else Some([Some(t.value)])
  }

  function RenderedAll(h: Heap, redis: set<Ref>, o: Options, vs: seq<LuaValue>, stack: nat): Option<seq<Bulk>>
    decreases stack, |vs| + 1
  {
    if vs == [] then Some([])
    else Both(Rendered(h, redis, o, vs[0], stack), RenderedAll(h, redis, o, vs[1..], stack))
  }

  function Both(a: Option<seq<Bulk>>, b: Option<seq<Bulk>>): Option<seq<Bulk>> {
    if a.None? || b.None? then None else Some(a.value + b.value)
  }

  // What is written

  function Body(b: Bulk): Text {
    if b.None? then [DOLLAR, MINUS, 49] else [DOLLAR] + (Digits(|b.value|) + (CRLF + b.value))
  }

  /** Bulk strings as they are written: each after a line end. */
  function Lines(bs: seq<Bulk>): Text {
    if bs == [] then [] else CRLF + (Body(bs[0]) + Lines(bs[1..]))
  }

  function Command(n: nat, bs: seq<Bulk>): Text {
    [STAR] + (Digits(n) + (Lines(bs) + CRLF))
  }

  // What a server reads: "Arrays" and "Bulk strings" of the Redis serialization protocol

  /** A decimal number and a line end. */
  function ParseLength(t: Text): (p: Option<J.Parsed<nat>>)
    ensures p.Some? ==> |p.value.rest| < |t|
  {
    var n := J.DigitRun(t);
    if n == 0 || |t| < n + 2 || t[n..n + 2] != CRLF then None
    else Some(J.Parsed(Value(t[..n]), t[n + 2..]))
  }

  function ParseBulk(t: Text): (p: Option<J.Parsed<Bulk>>)
    ensures p.Some? ==> |p.value.rest| < |t|
  {
    if |t| >= 5 && t[..5] == [DOLLAR, MINUS, 49] + CRLF then Some(J.Parsed(None, t[5..]))
    else if t == [] || t[0] != DOLLAR then None
    else
      var p := ParseLength(t[1..]);
      if p.None? then None else TakeText(p.value.value, p.value.rest)
  }

  /** The text of a bulk string once its length is known. */
  function TakeText(n: nat, t: Text): (p: Option<J.Parsed<Bulk>>)
    ensures p.Some? ==> |p.value.rest| < |t|
  {
    if |t| < n + 2 || t[n..n + 2] != CRLF then None else Some(J.Parsed(Some(t[..n]), t[n + 2..]))
  }

  /** Reads so many things one after the other. */
  function Repeat<T>(read: Text -> Option<J.Parsed<T>>, n: nat, t: Text): Option<J.Parsed<seq<T>>> {
    if n == 0 then Some(J.Parsed([], t))
    else
      var p := read(t);
      if p.None? then None else Grown(p.value.value, Repeat(read, n - 1, p.value.rest))
  }

  /** One thing in front of those read after it. */
  function Grown<T>(first: T, more: Option<J.Parsed<seq<T>>>): Option<J.Parsed<seq<T>>> {
    if more.None? then None else Some(J.Parsed([first] + more.value.value, more.value.rest))
  }

  function ParseBulks(n: nat, t: Text): Option<J.Parsed<seq<Bulk>>> {
    Repeat(ParseBulk, n, t)
  }

  function ParseCommand(t: Text): Option<J.Parsed<seq<Bulk>>> {
    if t == [] || t[0] != STAR then None
    else
      var p := ParseLength(t[1..]);
      if p.None? then None else ParseBulks(p.value.value, p.value.rest)
  }

  // Reading back

  lemma LengthParses(n: nat, rest: Text)
    ensures ParseLength(Digits(n) + (CRLF + rest)) == Some(J.Parsed(n, rest))
  {
    var t := Digits(n) + (CRLF + rest);
    R.RunOfDigits(Digits(n), CRLF + rest);
    ValueOfDigits(n);
    assert t[..|Digits(n)|] == Digits(n);
    assert t[|Digits(n)|..|Digits(n)| + 2] == CRLF;
    assert t[|Digits(n)| + 2..] == rest;
  }

  lemma TextIsTaken(b: Text, rest: Text)
    ensures TakeText(|b|, b + (CRLF + rest)) == Some(J.Parsed(Some(b), rest))
  {
    var t := b + (CRLF + rest);
    assert t[..|b|] == b && t[|b|..|b| + 2] == CRLF && t[|b| + 2..] == rest;
  }

  /** A bulk string whose length starts with a digit. */
  lemma TextParses(n: nat, digits: Text, after: Text)
    requires |digits| > 0 && IsDigit(digits[0]) && |after| >= 2
    requires ParseLength(digits + after) == Some(J.Parsed(n, after[2..])) && TakeText(n, after[2..]).Some?
    ensures ParseBulk([DOLLAR] + (digits + after)) == TakeText(n, after[2..])
  {
    var t := [DOLLAR] + (digits + after);
    assert t[1..] == digits + after && t[1] == digits[0];
    assert |t| >= 5 ==> t[..5][1] == digits[0];
  }

  lemma SomeParses(b: Text, rest: Text)
    ensures ParseBulk([DOLLAR] + (Digits(|b|) + (CRLF + (b + (CRLF + rest))))) == Some(J.Parsed(Some(b), rest))
  {
    LengthParses(|b|, b + (CRLF + rest));
    TextIsTaken(b, rest);
    assert (CRLF + (b + (CRLF + rest)))[2..] == b + (CRLF + rest);
    TextParses(|b|, Digits(|b|), CRLF + (b + (CRLF + rest)));
  }

  lemma Regroup(a: Text, b: Text, c: Text, d: Text, e: Text)
    ensures (a + (b + (c + d))) + e == a + (b + (c + (d + e)))
  {
  }

  lemma BulkParses(b: Bulk, rest: Text)
    ensures ParseBulk(Body(b) + (CRLF + rest)) == Some(J.Parsed(b, rest))
  {
    if b.None? {
      var t := Body(b) + (CRLF + rest);
      assert t[..5] == [DOLLAR, MINUS, 49] + CRLF && t[5..] == rest;
    } else {
      SomeParses(b.value, rest);
      Regroup([DOLLAR], Digits(|b.value|), CRLF, b.value, CRLF + rest);
    }
  }

  /** Bulk strings as they are read: each before a line end. */
  function Wire(bs: seq<Bulk>): Text {
    if bs == [] then [] else Body(bs[0]) + (CRLF + Wire(bs[1..]))
  }

  lemma LinesShape(a: Text, b: Text, c: Text, d: Text)
    requires c + a == a + d
    ensures (a + (b + c)) + a == a + (b + (a + d))
  {
    assert (a + (b + c)) + a == a + (b + (c + a));
  }

  lemma {:induction false} LinesAreWire(bs: seq<Bulk>)
    ensures Lines(bs) + CRLF == CRLF + Wire(bs)
  {
    if bs != [] {
      LinesAreWire(bs[1..]);
      LinesShape(CRLF, Body(bs[0]), Lines(bs[1..]), Wire(bs[1..]));
    }
  }

  lemma OneMore(n: nat, b: Bulk, rest: Text)
    requires n > 0
    ensures ParseBulks(n, Body(b) + (CRLF + rest)) == Grown(b, ParseBulks(n - 1, rest))
  {
    BulkParses(b, rest);
  }

  lemma WireStep(b: Bulk, bs: seq<Bulk>)
    ensures Wire([b] + bs) == Body(b) + (CRLF + Wire(bs))
  {
    assert ([b] + bs)[1..] == bs;
  }

  lemma BulksStep(b: Bulk, bs: seq<Bulk>, n: nat)
    ensures ParseBulks(n + 1, Wire([b] + bs)) == Grown(b, ParseBulks(n, Wire(bs)))
  {
    WireStep(b, bs);
    OneMore(n + 1, b, Wire(bs));
  }

  lemma HeadAndTail(a: seq<Bulk>, b: seq<Bulk>)
    requires a != []
    ensures a + b == [a[0]] + (a[1..] + b) && [a[0]] + a[1..] == a
  {
  }

  lemma ReadsNone(bs: seq<Bulk>)
    ensures ParseBulks(0, Wire([] + bs)) == Some(J.Parsed([], Wire(bs)))
  {
    assert [] + bs == bs;
  }

  /** So many bulk strings are read off the wire, and those after them are left. */
  lemma {:induction false} BulksParse(a: seq<Bulk>, b: seq<Bulk>, n: nat)
    requires n == |a|
    ensures ParseBulks(n, Wire(a + b)) == Some(J.Parsed(a, Wire(b)))
  {
    if n == 0 {
      ReadsNone(b);
    } else {
      HeadAndTail(a, b);
      BulksParse(a[1..], b, n - 1);
      BulksStep(a[0], a[1..] + b, n - 1);
    }
  }

  /** Reading goes wrong when it goes wrong after some things. */
  lemma {:induction false} FailsLater<T>(read: Text -> Option<J.Parsed<T>>, m: nat, k: nat, t: Text)
    requires Repeat(read, m, t).Some? && Repeat(read, k, Repeat(read, m, t).value.rest) == None
    ensures Repeat(read, m + k, t) == None
    decreases m
  {
    if m > 0 {
      FailsLater(read, m - 1, k, read(t).value.rest);
    }
  }

  lemma NothingParses(n: nat)
    requires n > 0
    ensures ParseBulks(n, []) == None
  {
  }

  lemma RunsOut(m: nat, n: nat, t: Text, bs: seq<Bulk>)
    requires n > m && ParseBulks(m, t) == Some(J.Parsed(bs, []))
    ensures ParseBulks(n, t) == None
  {
    NothingParses(n - m);
    FailsLater(ParseBulk, m, n - m, t);
  }

  lemma AllParse(bs: seq<Bulk>)
    ensures ParseBulks(|bs|, Wire(bs)) == Some(J.Parsed(bs, []))
  {
    BulksParse(bs, [], |bs|);
    assert bs + [] == bs;
  }

  /** No more can be read than were written. */
  lemma BulksRunOut(n: nat, bs: seq<Bulk>)
    requires n > |bs|
    ensures ParseBulks(n, Wire(bs)) == None
  {
    AllParse(bs);
    RunsOut(|bs|, n, Wire(bs), bs);
  }

  lemma CommandStarts(n: nat, bs: seq<Bulk>)
    ensures ParseCommand(Command(n, bs)) == ParseBulks(n, Wire(bs))
  {
    LinesAreWire(bs);
    LengthParses(n, Wire(bs));
    assert Command(n, bs)[1..] == Digits(n) + (Lines(bs) + CRLF);
  }

  /** A command that announces too few leaves the others unread. */
  lemma CommandParses(a: seq<Bulk>, b: seq<Bulk>)
    ensures ParseCommand(Command(|a|, a + b)) == Some(J.Parsed(a, Wire(b)))
  {
    CommandStarts(|a|, a + b);
    BulksParse(a, b, |a|);
  }

  /** A command that announces too many cannot be read. */
  lemma CommandRunsOut(n: nat, bs: seq<Bulk>)
    requires n > |bs|
    ensures ParseCommand(Command(n, bs)) == None
  {
    CommandStarts(n, bs);
    BulksRunOut(n, bs);
  }

  /** A command reads back as its bulk strings, with nothing left over, exactly when it announces as many as it holds. */
  lemma CommandReadsBack(n: nat, bs: seq<Bulk>)
    ensures ParseCommand(Command(n, bs)) == Some(J.Parsed(bs, [])) <==> n == |bs|
  {
    if n > |bs| {
      CommandRunsOut(n, bs);
    } else {
      CommandSplits(n, bs);
      assert n < |bs| ==> bs[..n] != bs;
      assert n == |bs| ==> bs[..n] == bs && bs[n..] == [];
    }
  }

  lemma CommandSplits(n: nat, bs: seq<Bulk>)
    requires n <= |bs|
    ensures ParseCommand(Command(n, bs)) == Some(J.Parsed(bs[..n], Wire(bs[n..])))
  {
    assert bs[..n] + bs[n..] == bs;
    CommandParses(bs[..n], bs[n..]);
  }

  /** An argument that is no marked table becomes exactly one bulk string, so without marked tables every command reads back. */
  lemma {:induction false} OneEach(h: Heap, redis: set<Ref>, o: Options, vs: seq<LuaValue>, stack: nat)
    requires forall i :: 0 <= i < |vs| ==> vs[i].Table? ==> vs[i].ref !in redis
    requires RenderedAll(h, redis, o, vs, stack).Some?
    ensures |RenderedAll(h, redis, o, vs, stack).value| == |vs|
    ensures forall i :: 0 <= i < |vs| ==>
      Rendered(h, redis, o, vs[i], stack) == Some([RenderedAll(h, redis, o, vs, stack).value[i]])
  {
    if vs != [] {
      OneEach(h, redis, o, vs[1..], stack);
      assert |Rendered(h, redis, o, vs[0], stack).value| == 1;
      assert forall i :: 0 < i < |vs| ==> vs[i] == vs[1..][i - 1];
    }
  }

  /** The marks of the protocol, which reader and writer share. */
  lemma Vocabulary()
    ensures [STAR, DOLLAR] == Ascii("*$") && CRLF == Ascii("\r\n") && [DOLLAR, MINUS, 49] + CRLF == Ascii("$-1\r\n")
  {
  }

  /** What a server has to see for an argument that is no marked table. */
  predicate Means(h: Heap, o: Options, v: LuaValue, b: Bulk) {
    match v
    case Nil => b.None?
    case String(bytes) => b == Some(bytes)
    case Integer(n) => b.Some? && J.ParseNumber(b.value) == Some(J.Parsed(J.Number(n), []))
    case Boolean(on) => b == Some(Ascii(if on then "true" else "false"))
    case Float(text, _) => b == Some(text)
    case Table(r) => b.Some? && (W.TableMeets(h, o, W.CLEAN, At(h, r), 1) ==> J.Parse(b.value) == TableTree(h, o, At(h, r), 1))
    case _ => false
  }

  /** Arguments that make the whole command fail. */
  predicate Refused(h: Heap, o: Options, v: LuaValue) {
    v.LightUserData? || v.Other? || (v.Table? && TableText(h, o, false, At(h, v.ref), 1).None?)
  }

  lemma CleanTableMeans(h: Heap, o: Options, t: LuaTable)
    requires TableText(h, o, false, t, 1).Some? && W.TableMeets(h, o, W.CLEAN, t, 1)
    ensures J.Parse(TableText(h, o, false, t, 1).value) == TableTree(h, o, t, 1)
  {
    var text := TableText(h, o, false, t, 1).value;
    T.TableMeetsLess(h, o, W.CLEAN, W.TIDY, t, 1);
    R.TableParses(h, o, false, t, 1, []);
    T.SeenTableIsTree(h, o, W.CLEAN, t, 1);
    assert text + [] == text;
  }

  lemma OneMeans(h: Heap, redis: set<Ref>, o: Options, v: LuaValue, stack: nat)
    requires v.Table? ==> v.ref !in redis
    ensures Rendered(h, redis, o, v, stack).None? <==> Refused(h, o, v)
    ensures Rendered(h, redis, o, v, stack).Some? ==>
      var bs := Rendered(h, redis, o, v, stack).value; |bs| == 1 && Means(h, o, v, bs[0])
  {
    match v
    case Integer(n) =>
      R.NumberParses(n, []);
      assert Signed(n) + [] == Signed(n);
    case Boolean(_) =>
      assert Ascii("true") == J.TRUE && Ascii("false") == J.FALSE;
    case Table(r) =>
      if TableText(h, o, false, At(h, r), 1).Some? && W.TableMeets(h, o, W.CLEAN, At(h, r), 1) {
        CleanTableMeans(h, o, At(h, r));
      }
    case _ =>
  }

  predicate Unmarked(redis: set<Ref>, vs: seq<LuaValue>) {
    forall i :: 0 <= i < |vs| && vs[i].Table? ==> vs[i].ref !in redis
  }

  lemma {:induction false} FailsExactly(h: Heap, redis: set<Ref>, o: Options, vs: seq<LuaValue>, stack: nat)
    requires Unmarked(redis, vs)
    ensures RenderedAll(h, redis, o, vs, stack).None? <==> exists i :: 0 <= i < |vs| && Refused(h, o, vs[i])
  {
    if vs != [] {
      OneMeans(h, redis, o, vs[0], stack);
      FailsExactly(h, redis, o, vs[1..], stack);
      assert forall i :: 0 < i < |vs| ==> vs[i] == vs[1..][i - 1];
    }
  }

  /** The text of a command and what a server reads from it: one bulk string for each argument, with its meaning. */
  predicate Sends(h: Heap, o: Options, vs: seq<LuaValue>, text: Text) {
    var p := ParseCommand(text);
    && p.Some? && p.value.rest == [] && |p.value.value| == |vs|
    && forall i :: 0 <= i < |vs| ==> Means(h, o, vs[i], p.value.value[i])
  }

  lemma ArgumentsAreSent(h: Heap, redis: set<Ref>, o: Options, vs: seq<LuaValue>, stack: nat)
    requires Unmarked(redis, vs) && RenderedAll(h, redis, o, vs, stack).Some?
    ensures Sends(h, o, vs, Command(|vs|, RenderedAll(h, redis, o, vs, stack).value))
  {
    var bs := RenderedAll(h, redis, o, vs, stack).value;
    OneEach(h, redis, o, vs, stack);
    CommandReadsBack(|vs|, bs);
    forall i | 0 <= i < |vs| ensures Means(h, o, vs[i], bs[i]) {
      OneMeans(h, redis, o, vs[i], stack);
    }
  }

  /** A marked sequence of arguments that are no marked tables is spread out: its values in order, with their meaning. */
  lemma MarkedSequenceIsSpread(h: Heap, redis: set<Ref>, o: Options, r: Ref, stack: nat)
    requires r in h && r in redis && stack > 0
    requires Legal(h[r]) && !h[r].markedArray && !h[r].markedObject && h[r].entries != [] && Ascending(h[r].entries)
    requires forall i :: 0 <= i < |h[r].entries| && h[r].entries[i].value.Table? ==> h[r].entries[i].value.ref !in redis
    requires RenderedAll(h, redis, o, [Table(r)], stack).Some?
    ensures var bs, es := RenderedAll(h, redis, o, [Table(r)], stack).value, h[r].entries;
      |bs| == |es| && forall i :: 0 <= i < |es| ==> Means(h, o, es[i].value, bs[i])
  {
    AscendingIsDetected(h[r]);
    var vs := Listed(h[r]);
    var bs := RenderedAll(h, redis, o, vs, stack - 1);
    assert [Table(r)][1..] == [];
    assert RenderedAll(h, redis, o, [Table(r)][1..], stack) == Some([]);
    assert bs.value + [] == bs.value;
    OneEach(h, redis, o, vs, stack - 1);
    forall i | 0 <= i < |vs| ensures Means(h, o, h[r].entries[i].value, bs.value[i]) {
      OneMeans(h, redis, o, vs[i], stack - 1);
    }
  }

  lemma ArgumentsReadBack(h: Heap, redis: set<Ref>, o: Options, vs: seq<LuaValue>, stack: nat)
    requires forall i :: 0 <= i < |vs| ==> vs[i].Table? ==> vs[i].ref !in redis
    requires RenderedAll(h, redis, o, vs, stack).Some?
    ensures var bs := RenderedAll(h, redis, o, vs, stack).value;
      |bs| == |vs| && ParseCommand(Command(|vs|, bs)) == Some(J.Parsed(bs, []))
  {
    OneEach(h, redis, o, vs, stack);
    CommandReadsBack(|vs|, RenderedAll(h, redis, o, vs, stack).value);
  }

  /** How many bulk strings arguments come to, read off the tables alone. */
  function Spread(h: Heap, redis: set<Ref>, v: LuaValue, stack: nat): nat
    decreases stack, 0
  {
    if !v.Table? || v.ref !in redis then 1
    else if stack == 0 then 0
    else SpreadAll(h, redis, Listed(At(h, v.ref)), stack - 1)
  }

  function SpreadAll(h: Heap, redis: set<Ref>, vs: seq<LuaValue>, stack: nat): nat
    decreases stack, |vs| + 1
  {
    if vs == [] then 0 else Spread(h, redis, vs[0], stack) + SpreadAll(h, redis, vs[1..], stack)
  }

  lemma RenderedCount(h: Heap, redis: set<Ref>, o: Options, v: LuaValue, stack: nat)
    requires Rendered(h, redis, o, v, stack).Some?
    ensures |Rendered(h, redis, o, v, stack).value| == Spread(h, redis, v, stack)
    decreases stack, 0
  {
    if v.Table? && v.ref in redis {
      RenderedAllCount(h, redis, o, Listed(At(h, v.ref)), stack - 1);
    }
  }

  lemma RenderedAllCount(h: Heap, redis: set<Ref>, o: Options, vs: seq<LuaValue>, stack: nat)
    requires RenderedAll(h, redis, o, vs, stack).Some?
    ensures |RenderedAll(h, redis, o, vs, stack).value| == SpreadAll(h, redis, vs, stack)
    decreases stack, |vs| + 1
  {
    if vs != [] {
      RenderedCount(h, redis, o, vs[0], stack);
      RenderedAllCount(h, redis, o, vs[1..], stack);
    }
  }

  /** With marked tables too: a command reads back exactly when its arguments come to as many bulk strings as there are arguments. */
  lemma ArgumentsReadBackExactly(h: Heap, redis: set<Ref>, o: Options, vs: seq<LuaValue>, stack: nat)
    requires RenderedAll(h, redis, o, vs, stack).Some?
    ensures var bs := RenderedAll(h, redis, o, vs, stack).value;
      ParseCommand(Command(|vs|, bs)) == Some(J.Parsed(bs, [])) <==> SpreadAll(h, redis, vs, stack) == |vs|
  {
    RenderedAllCount(h, redis, o, vs, stack);
    CommandReadsBack(|vs|, RenderedAll(h, redis, o, vs, stack).value);
  }

  /** A marked table that is not taken for an array is announced and writes nothing, whatever it holds. */
  lemma UnlistedTableWritesNothing(h: Heap, redis: set<Ref>, o: Options, r: Ref, stack: nat)
    requires r in redis && stack > 0 && !ArrayShape(At(h, r)).0
    ensures Rendered(h, redis, o, Table(r), stack) == Some([])
    ensures RenderedAll(h, redis, o, [Table(r)], stack) == Some([]) && ParseCommand(Command(1, [])).None?
  {
    assert Listed(At(h, r)) == [];
    var nothing: seq<Bulk> := [];
    assert nothing + nothing == nothing;
    assert Rendered(h, redis, o, Table(r), stack) == Some(nothing);
    assert [Table(r)][1..] == [];
    assert RenderedAll(h, redis, o, [Table(r)][1..], stack) == Some([]);
    CommandRunsOut(1, []);
  }

  /** A marked table on its own announces one argument but is spread over two. */
  lemma MarkedTableMiscounts(h: Heap, o: Options, stack: nat, t: LuaTable)
    requires h == map[0 := t] && stack > 0
    requires t == LuaTable([Entry(Integer(1), Boolean(true)), Entry(Integer(2), Boolean(false))], 2, false, false)
    ensures Legal(t)
    ensures var bs := RenderedAll(h, {0}, o, [Table(0)], stack); bs.Some? && ParseCommand(Command(1, bs.value)) != Some(J.Parsed(bs.value, []))
  {
    TwoSlots(t);
    TwoScalars(h, o, stack - 1);
    OneTable(h, o, stack, [Some(J.TRUE), Some(J.FALSE)]);
    CommandReadsBack(1, [Some(J.TRUE), Some(J.FALSE)]);
  }

  lemma TwoSlots(t: LuaTable)
    requires t == LuaTable([Entry(Integer(1), Boolean(true)), Entry(Integer(2), Boolean(false))], 2, false, false)
    ensures Legal(t) && Listed(t) == [Boolean(true), Boolean(false)]
  {
    SequenceIsLegal(t);
    AscendingIsDetected(t);
    Found(t.entries, 0);
    Found(t.entries, 1);
  }

  lemma TwoScalars(h: Heap, o: Options, stack: nat)
    ensures RenderedAll(h, {0}, o, [Boolean(true), Boolean(false)], stack) == Some([Some(J.TRUE), Some(J.FALSE)])
  {
    var yes: seq<Bulk>, no: seq<Bulk> := [Some(J.TRUE)], [Some(J.FALSE)];
    var one := [Boolean(false)];
    assert [Boolean(true), Boolean(false)][1..] == one;
    assert one[1..] == [];
    assert no + [] == no && yes + no == [Some(J.TRUE), Some(J.FALSE)];
    assert RenderedAll(h, {0}, o, one[1..], stack) == Some([]);
    assert RenderedAll(h, {0}, o, one, stack) == Some(no);
  }

  lemma OneTable(h: Heap, o: Options, stack: nat, bs: seq<Bulk>)
    requires stack > 0 && RenderedAll(h, {0}, o, Listed(At(h, 0)), stack - 1) == Some(bs)
    ensures RenderedAll(h, {0}, o, [Table(0)], stack) == Some(bs)
  {
    assert [Table(0)][1..] == [];
    assert RenderedAll(h, {0}, o, [Table(0)][1..], stack) == Some([]);
    assert bs + [] == bs;
  }

  // The writer

  lemma {:induction false} LinesTogether(a: seq<Bulk>, b: seq<Bulk>)
    ensures Lines(a + b) == Lines(a) + Lines(b)
  {
    if a == [] {
      assert a + b == b;
    } else {
      assert (a + b)[1..] == a[1..] + b;
      LinesTogether(a[1..], b);
      assert CRLF + (Body(a[0]) + (Lines(a[1..]) + Lines(b))) == (CRLF + (Body(a[0]) + Lines(a[1..]))) + Lines(b);
    }
  }

  lemma OneLine(b: Bulk)
    ensures Lines([b]) == CRLF + Body(b)
  {
    assert [b][1..] == [];
    assert Body(b) + [] == Body(b);
  }

  /** A tape with text added at its end. */
  predicate Added(before: B.Tape, after: B.Tape, t: Text) {
    after == B.Tape(before.bytes + t, before.cursor)
  }

  method WriteResp(w: B.Buffer, text: Text)
    requires w.Valid()
    modifies w, w.store
    ensures w.Valid() && (w.store == old(w.store) || fresh(w.store))
    ensures Added(old(w.tape), w.tape, Lines([Some(text)]))
  {
    OneLine(Some(text));
    ghost var t := w.tape.bytes;
    w.WriteSlice(CRLF + [DOLLAR]);
    w.WriteSlice(Digits(|text|));
    w.WriteSlice(CRLF);
    w.WriteSlice(text);
    FourWrites(t, CRLF, [DOLLAR], Digits(|text|), text);
  }

  lemma FourWrites(t: Text, crlf: Text, dollar: Text, digits: Text, text: Text)
    ensures (((t + (crlf + dollar)) + digits) + crlf) + text == t + (crlf + (dollar + (digits + (crlf + text))))
  {
  }

  method WriteNull(w: B.Buffer)
    requires w.Valid()
    modifies w, w.store
    ensures w.Valid() && (w.store == old(w.store) || fresh(w.store))
    ensures Added(old(w.tape), w.tape, Lines([None]))
  {
    OneLine(None);
    w.WriteSlice(CRLF + [DOLLAR, MINUS, 49]);
  }

  /** What concat_resp_one leaves in the buffer: its bulk strings, or an error. */
  predicate Concatenated(before: B.Tape, after: B.Tape, ok: bool, bs: Option<seq<Bulk>>) {
    ok == bs.Some? && (ok ==> Added(before, after, Lines(bs.value)))
  }

  method ConcatJson(w: B.Buffer, h: Heap, o: Options, t: LuaTable) returns (ok: bool)
    requires w.Valid()
    modifies w, w.store
    ensures w.Valid() && (w.store == old(w.store) || fresh(w.store))
    ensures Concatenated(old(w.tape), w.tape, ok, AsBulk(TableText(h, o, false, t, 1)))
  {
    var json := new Writer();
    ok := json.EncodeTable(h, t, 0, false, o);
    if ok {
      assert json.bytes == TableText(h, o, false, t, 1).value;
      WriteResp(w, json.bytes);
    }
  }

  method ConcatOne(w: B.Buffer, h: Heap, redis: set<Ref>, o: Options, v: LuaValue, stack: nat) returns (ok: bool)
    requires w.Valid()
    modifies w, w.store
    ensures w.Valid() && (w.store == old(w.store) || fresh(w.store))
    ensures Concatenated(old(w.tape), w.tape, ok, Rendered(h, redis, o, v, stack))
    decreases stack, 0
  {
    ok := true;
    match v
    case Nil => WriteNull(w);
    case Float(text, _) => WriteResp(w, text);
    case Integer(n) => WriteResp(w, Signed(n));
    case Boolean(on) => WriteResp(w, if on then J.TRUE else J.FALSE);
    case String(bytes) => WriteResp(w, bytes);
    case Table(r) =>
      if r in redis {
        if stack == 0 {
          return false;
        }
        ok := ConcatAll(w, h, redis, o, Listed(At(h, r)), stack - 1);
      } else {
        ok := ConcatJson(w, h, o, At(h, r));
      }
    case _ => ok := false;
  }

  method ConcatAll(w: B.Buffer, h: Heap, redis: set<Ref>, o: Options, vs: seq<LuaValue>, stack: nat) returns (ok: bool)
    requires w.Valid()
    modifies w, w.store
    ensures w.Valid() && (w.store == old(w.store) || fresh(w.store))
    ensures Concatenated(old(w.tape), w.tape, ok, RenderedAll(h, redis, o, vs, stack))
    decreases stack, |vs| + 1
  {
    ghost var before := w.tape;
    ghost var sofar: seq<Bulk> := [];
    StartOfAll(RenderedAll(h, redis, o, vs, stack), before);
    assert vs[0..] == vs;
    for i := 0 to |vs|
      invariant w.Valid() && (w.store == old(w.store) || fresh(w.store))
      invariant Added(before, w.tape, Lines(sofar))
      invariant RenderedAll(h, redis, o, vs, stack) == Both(Some(sofar), RenderedAll(h, redis, o, vs[i..], stack))
    {
      RenderedStep(h, redis, o, vs, stack, i, sofar);
      ghost var now := w.tape;
      ok := ConcatOne(w, h, redis, o, vs[i], stack);
      if !ok {
        return false;
      }
      ghost var bs := Rendered(h, redis, o, vs[i], stack).value;
      AddedTwice(before, now, w.tape, sofar, bs);
      sofar := sofar + bs;
    }
    assert sofar + [] == sofar;
    ok := true;
  }

  lemma StartOfAll(total: Option<seq<Bulk>>, t: B.Tape)
    ensures total == Both(Some([]), total) && Added(t, t, Lines([]))
  {
    assert t.bytes + [] == t.bytes;
    if total.Some? {
      assert [] + total.value == total.value;
    }
  }

  lemma AddedTwice(before: B.Tape, now: B.Tape, after: B.Tape, a: seq<Bulk>, b: seq<Bulk>)
    requires Added(before, now, Lines(a)) && Added(now, after, Lines(b))
    ensures Added(before, after, Lines(a + b))
  {
    LinesTogether(a, b);
    Associates(before.bytes, Lines(a), Lines(b));
  }

  lemma Associates(a: Text, b: Text, c: Text)
    ensures (a + b) + c == a + (b + c)
  {
  }

  lemma RenderedStep(h: Heap, redis: set<Ref>, o: Options, vs: seq<LuaValue>, stack: nat, i: nat, sofar: seq<Bulk>)
    requires i < |vs|
    ensures var bs := Rendered(h, redis, o, vs[i], stack);
      Both(Some(sofar), RenderedAll(h, redis, o, vs[i..], stack))
      == if bs.None? then None else Both(Some(sofar + bs.value), RenderedAll(h, redis, o, vs[i + 1..], stack))
  {
    assert vs[i..][1..] == vs[i + 1..];
    var bs, rest := Rendered(h, redis, o, vs[i], stack), RenderedAll(h, redis, o, vs[i + 1..], stack);
    if bs.Some? && rest.Some? {
      assert sofar + (bs.value + rest.value) == (sofar + bs.value) + rest.value;
    }
  }

  /** The announced number of arguments. */
  method WriteCount(w: B.Buffer, count: nat)
    requires w.Valid() && w.tape == B.Tape([], 0)
    modifies w, w.store
    ensures w.Valid() && (w.store == old(w.store) || fresh(w.store))
    ensures w.tape == B.Tape(([] + [STAR]) + Digits(count), 0)
  {
    w.Write(STAR);
    w.WriteSlice(Digits(count));
  }

  /** concat_resp, of at least one argument: the whole command, or an error. */
  method ConcatResp(h: Heap, redis: set<Ref>, o: Options, vs: seq<LuaValue>, stack: nat) returns (text: Option<Text>)
    requires vs != []
    ensures text == var bs := RenderedAll(h, redis, o, vs, stack); if bs.None? then None else Some(Command(|vs|, bs.value))
    ensures Unmarked(redis, vs) ==> (text.None? <==> exists i :: 0 <= i < |vs| && Refused(h, o, vs[i]))
    ensures Unmarked(redis, vs) && text.Some? ==> Sends(h, o, vs, text.value)
  {
    if Unmarked(redis, vs) {
      FailsExactly(h, redis, o, vs, stack);
      if RenderedAll(h, redis, o, vs, stack).Some? {
        ArgumentsAreSent(h, redis, o, vs, stack);
      }
    }
    var w := new B.Buffer(B.DEFAULT_RESERVE);
    WriteCount(w, |vs|);
    var ok := ConcatAll(w, h, redis, o, vs, stack);
    if !ok {
      return None;
    }
    w.WriteSlice(CRLF);
    CommandShape([STAR], Digits(|vs|), Lines(RenderedAll(h, redis, o, vs, stack).value), CRLF);
    B.StoresReadable(w.store[..w.len], w.rpos, w.tape);
    text := Some(w.store[w.rpos..w.len]);
  }

  lemma CommandShape(star: Text, digits: Text, lines: Text, end: Text)
    ensures ((([] + star) + digits) + lines) + end == star + (digits + (lines + end))
  {
  }
}
