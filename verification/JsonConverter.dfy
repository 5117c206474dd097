/** Lua values to JSON without text in between, and JSON values onto the Lua stack. */
module JsonConverter {
  import opened Wrappers
  import opened Bytes
  import opened LuaTables
  import opened LuaStack
  import opened JsonEncoding
  import J = Json

  // From the Lua stack

  /** All of a list of results, or none when one is missing. */
  function AllOf<T>(js: seq<Option<T>>): Option<seq<T>> {
    if js == [] then Some([])
    else if js[0].None? || AllOf(js[1..]).None? then None
    else Some([js[0].value] + AllOf(js[1..]).value)
  }

  /** A list cut before a position, when nothing before it is missing. */
  lemma {:induction false} AllOfSplit<T>(js: seq<Option<T>>, sofar: seq<T>)
    requires |sofar| <= |js| && forall i :: 0 <= i < |sofar| ==> js[i] == Some(sofar[i])
    ensures |sofar| == |js| ==> AllOf(js) == Some(sofar)
    ensures |sofar| < |js| && js[|sofar|].None? ==> AllOf(js).None?
  {
    if js != [] {
      if sofar != [] {
        AllOfSplit(js[1..], sofar[1..]);
        assert sofar == [sofar[0]] + sofar[1..];
      }
    }
  }

  /** The trees of the items of an array. */
  ghost function Trees(h: Heap, vs: seq<LuaValue>, level: nat): (js: seq<Option<J.Json>>)
    requires level <= MAX_DEPTH
    ensures |js| == |vs| && forall i :: 0 <= i < |vs| ==> js[i] == Tree(h, DEFAULT, vs[i], level)
  {
    seq(|vs|, i requires 0 <= i < |vs| => Tree(h, DEFAULT, vs[i], level))
  }

  lemma {:induction false} AllTrees(h: Heap, vs: seq<LuaValue>, level: nat)
    requires level <= MAX_DEPTH
    ensures AllOf(Trees(h, vs, level)) == ItemsTree(h, DEFAULT, vs, level)
  {
    if vs != [] {
      AllTrees(h, vs[1..], level);
      assert Trees(h, vs, level)[1..] == Trees(h, vs[1..], level);
    }
  }

  /** What an entry contributes: its name and its value. */
  function Field(h: Heap, e: Entry, level: nat): Option<(Text, J.Json)>
    requires level <= MAX_DEPTH
  {
    var name, j := Name(DEFAULT, e.key), Tree(h, DEFAULT, e.value, level);
    if name.None? || j.None? then None else Some((name.value, j.value))
  }

  ghost function Fields(h: Heap, es: seq<Entry>, level: nat): (fs: seq<Option<(Text, J.Json)>>)
    requires level <= MAX_DEPTH
    ensures |fs| == |es| && forall i :: 0 <= i < |es| ==> fs[i] == Field(h, es[i], level)
  {
    seq(|es|, i requires 0 <= i < |es| => Field(h, es[i], level))
  }

  /** Fields put into a map one after the other. */
  function LastWins(fs: seq<(Text, J.Json)>): map<Text, J.Json> {
    if fs == [] then map[] else LastWins(fs[..|fs| - 1])[fs[|fs| - 1].0 := fs[|fs| - 1].1]
  }

  lemma {:induction false} LastWinsFromFront(f: (Text, J.Json), fs: seq<(Text, J.Json)>)
    ensures LastWins([f] + fs) == map[f.0 := f.1] + LastWins(fs)
  {
    var all := [f] + fs;
    if fs == [] {
      assert LastWins(all) == LastWins(all[..0])[f.0 := f.1];
    } else {
      LastWinsFromFront(f, fs[..|fs| - 1]);
      assert all[..|all| - 1] == [f] + fs[..|fs| - 1];
    }
  }

  function LastWinsOf(fs: Option<seq<(Text, J.Json)>>): Option<map<Text, J.Json>> {
    if fs.None? then None else Some(LastWins(fs.value))
  }

  /** Inserting fields in order is what FieldsTree comes to: of the same names the last one stays. */
  lemma {:induction false} AllFields(h: Heap, es: seq<Entry>, level: nat)
    requires level <= MAX_DEPTH
    ensures LastWinsOf(AllOf(Fields(h, es, level))) == FieldsTree(h, DEFAULT, es, level)
  {
    if es != [] {
      AllFields(h, es[1..], level);
      assert Fields(h, es, level)[1..] == Fields(h, es[1..], level);
      var f, rest := Field(h, es[0], level), AllOf(Fields(h, es[1..], level));
      if f.Some? && rest.Some? {
        LastWinsFromFront(f.value, rest.value);
      }
    }
  }

  method ValueToJson(s: LuaState, v: LuaValue, depth: nat) returns (j: Option<J.Json>)
    requires LegalHeap(s.heap) && depth <= MAX_DEPTH
    modifies s`stack
    ensures j == Tree(s.heap, DEFAULT, v, depth)
    ensures s.stack == old(s.stack)
    decreases MAX_DEPTH - depth, 1
  {
    match v
    case Nil => return Some(J.Null);
    case LightUserData(isNull) => return if isNull then Some(J.Null) else None;
    case Boolean(on) => return Some(J.Bool(on));
    case Integer(n) => return Some(J.Number(n));
    case Float(text, finite) => return if finite then Some(J.Real(text)) else None;
    case String(bytes) => return if J.Utf8(bytes) then Some(J.String(bytes)) else None;
    case Table(r) => j := TableToJson(s, r, depth);
    case Other => return None;
  }

  method TableToJson(s: LuaState, r: Ref, depth: nat) returns (j: Option<J.Json>)
    requires LegalHeap(s.heap) && depth <= MAX_DEPTH
    modifies s`stack
    ensures j == if depth == MAX_DEPTH then None else TableTree(s.heap, DEFAULT, At(s.heap, r), depth + 1)
    ensures s.stack == old(s.stack)
    decreases MAX_DEPTH - depth, 0
  {
    if depth >= MAX_DEPTH {
      return None;
    }
    var isArray, len := s.ArraySize(r);
    if isArray {
      var items := ItemsToJson(s, r, len, depth);
      return AsArray(items);
    }
    var fields := FieldsToJson(s, r, depth);
    if fields.None? {
      return None;
    } else if fields.value == map[] {
      FieldsAreEmptyTogether(s.heap, DEFAULT, At(s.heap, r).entries, depth + 1);
      return Some(J.Array([]));
    } else {
      return Some(J.Object(fields.value));
    }
  }

  lemma FieldsAreEmptyTogether(h: Heap, o: Options, es: seq<Entry>, level: nat)
    requires level <= MAX_DEPTH && FieldsTree(h, o, es, level).Some?
    ensures FieldsTree(h, o, es, level).value == map[] <==> es == []
  {
    if es != [] {
      assert Name(o, es[0].key).value in FieldsTree(h, o, es, level).value;
    }
  }

  /** One step of a conversion: nothing left, something that has no JSON, or a value. */
  datatype Step<T> = Ended | Refused | Got(value: T)

  function Stepped<T>(j: Option<T>): Step<T> {
    if j.None? then Refused else Got(j.value)
  }

  method NextItem(values: Values, depth: nat) returns (step: Step<J.Json>)
    requires values.Valid() && LegalHeap(values.state.heap) && depth < MAX_DEPTH
    modifies values, values.state`stack
    ensures values.Valid() && values.state.stack[..values.top] == old(values.state.stack)[..values.top]
    ensures old(values.position) == values.len ==> step == Ended && values.position == values.len
    ensures old(values.position) < values.len ==>
      values.position == old(values.position) + 1
      && step == Stepped(Tree(values.state.heap, DEFAULT, Get(At(values.state.heap, values.table), values.position), depth + 1))
    decreases MAX_DEPTH - depth - 1, 2
  {
    var next := values.Next();
    if next.None? {
      return Ended;
    }
    var item := ValueToJson(values.state, next.value, depth + 1);
    step := Stepped(item);
  }

  method CollectItems(values: Values, depth: nat, ghost trees: seq<Option<J.Json>>) returns (items: Option<seq<J.Json>>)
    requires values.Valid() && values.position == 0 && LegalHeap(values.state.heap) && depth < MAX_DEPTH
    requires |trees| == values.len
    requires forall i :: 0 <= i < |trees| ==>
      trees[i] == Tree(values.state.heap, DEFAULT, Get(At(values.state.heap, values.table), i + 1), depth + 1)
    modifies values, values.state`stack
    ensures values.Valid() && values.state.stack[..values.top] == old(values.state.stack)[..values.top]
    ensures items == AllOf(trees)
    decreases MAX_DEPTH - depth - 1, 3
  {
    var sofar: seq<J.Json> := [];
    var more := true;
    while more
      invariant values.Valid() && values.state.stack[..values.top] == old(values.state.stack)[..values.top]
      invariant |sofar| == values.position && forall i :: 0 <= i < |sofar| ==> trees[i] == Some(sofar[i])
      invariant !more ==> values.position == values.len
      decreases more, values.len - values.position
    {
      var step := NextItem(values, depth);
      if step.Ended? {
        more := false;
      } else if step.Refused? {
        AllOfSplit(trees, sofar);
        return None;
      } else {
        sofar := sofar + [step.value];
      }
    }
    AllOfSplit(trees, sofar);
    items := Some(sofar);
  }

  method ItemsToJson(s: LuaState, r: Ref, len: nat, depth: nat) returns (items: Option<seq<J.Json>>)
    requires LegalHeap(s.heap) && depth < MAX_DEPTH
    modifies s`stack
    ensures items == ItemsTree(s.heap, DEFAULT, Slots(At(s.heap, r), len), depth + 1)
    ensures s.stack == old(s.stack)
    decreases MAX_DEPTH - depth - 1, 4
  {
    var values := new Values(s, r, len);
    items := CollectItems(values, depth, Trees(s.heap, Slots(At(s.heap, r), len), depth + 1));
    values.Drop();
    AllTrees(s.heap, Slots(At(s.heap, r), len), depth + 1);
  }

  method EntryToJson(s: LuaState, e: Entry, depth: nat) returns (field: Option<(Text, J.Json)>)
    requires LegalHeap(s.heap) && depth < MAX_DEPTH
    modifies s`stack
    ensures field == Field(s.heap, e, depth + 1)
    ensures s.stack == old(s.stack)
    decreases MAX_DEPTH - depth - 1, 2
  {
    var name := Name(DEFAULT, e.key);
    if name.None? {
      return None;
    }
    var value := ValueToJson(s, e.value, depth + 1);
    field := if value.None? then None else Some((name.value, value.value));
  }

  method NextField(pairs: Pairs, depth: nat) returns (step: Step<(Text, J.Json)>)
    requires pairs.Valid() && LegalHeap(pairs.state.heap) && depth < MAX_DEPTH
    modifies pairs, pairs.state`stack
    ensures pairs.Valid() && pairs.state.stack[..pairs.top] == old(pairs.state.stack)[..pairs.top]
    ensures old(pairs.index) == |pairs.Entries()| ==> step == Ended && pairs.index == old(pairs.index)
    ensures old(pairs.index) < |pairs.Entries()| ==>
      pairs.index == old(pairs.index) + 1
      && step == Stepped(Field(pairs.state.heap, pairs.Entries()[old(pairs.index)], depth + 1))
    decreases MAX_DEPTH - depth - 1, 3
  {
    var entry := pairs.Next();
    if entry.None? {
      return Ended;
    }
    var field := EntryToJson(pairs.state, entry.value, depth);
    step := Stepped(field);
  }

  method CollectFields(pairs: Pairs, depth: nat, ghost all: seq<Option<(Text, J.Json)>>) returns (fields: Option<map<Text, J.Json>>)
    requires pairs.Valid() && pairs.index == 0 && LegalHeap(pairs.state.heap) && depth < MAX_DEPTH
    requires |all| == |pairs.Entries()|
    requires forall i :: 0 <= i < |all| ==> all[i] == Field(pairs.state.heap, pairs.Entries()[i], depth + 1)
    modifies pairs, pairs.state`stack
    ensures pairs.Valid() && pairs.state.stack[..pairs.top] == old(pairs.state.stack)[..pairs.top]
    ensures fields == LastWinsOf(AllOf(all))
    decreases MAX_DEPTH - depth - 1, 4
  {
    var sofar: map<Text, J.Json> := map[];
    ghost var taken: seq<(Text, J.Json)> := [];
    var more := true;
    while more
      invariant pairs.Valid() && pairs.state.stack[..pairs.top] == old(pairs.state.stack)[..pairs.top]
      invariant |taken| == pairs.index && forall i :: 0 <= i < |taken| ==> all[i] == Some(taken[i])
      invariant sofar == LastWins(taken)
      invariant !more ==> pairs.index == |all|
      decreases more, |all| - pairs.index
    {
      var step := NextField(pairs, depth);
      if step.Ended? {
        more := false;
      } else if step.Refused? {
        AllOfSplit(all, taken);
        return None;
      } else {
        ghost var before := taken;
        taken := taken + [step.value];
        assert taken[..|taken| - 1] == before;
        sofar := sofar[step.value.0 := step.value.1];
      }
    }
    AllOfSplit(all, taken);
    fields := Some(sofar);
  }

  method FieldsToJson(s: LuaState, r: Ref, depth: nat) returns (fields: Option<map<Text, J.Json>>)
    requires LegalHeap(s.heap) && depth < MAX_DEPTH
    modifies s`stack
    ensures fields == FieldsTree(s.heap, DEFAULT, At(s.heap, r).entries, depth + 1)
    ensures s.stack == old(s.stack)
    decreases MAX_DEPTH - depth - 1, 5
  {
    AtIsLegal(s.heap, r);
    var pairs := new Pairs(s, r);
    fields := CollectFields(pairs, depth, Fields(s.heap, At(s.heap, r).entries, depth + 1));
    pairs.Drop();
    AllFields(s.heap, At(s.heap, r).entries, depth + 1);
  }
}
