/** Lua values and tables, and when a table is taken for an array. */
module LuaTables {
  import opened Bytes

  type Ref = int

  datatype LuaValue =
    | Nil
    | Boolean(on: bool)
    | Integer(number: int)
    | Float(text: Text, finite: bool) // the text is what the number prints as
    | String(bytes: Text)
    | LightUserData(isNull: bool)
    | Table(ref: Ref)
    | Other

  datatype Entry = Entry(key: LuaValue, value: LuaValue)

  /** A table: its entries in the order of iteration, the border its length operator reports, and two metafields. */
  datatype LuaTable = LuaTable(entries: seq<Entry>, border: nat, markedArray: bool, markedObject: bool)

  type Heap = map<Ref, LuaTable>

  const EMPTY: LuaTable := LuaTable([], 0, false, false)

  /** References in a Lua state never dangle; here one that did would read as an empty table. */
  function At(h: Heap, r: Ref): LuaTable {
    if r in h then h[r] else EMPTY
  }

  /** The position of a key, or the number of entries. */
  function IndexOf(es: seq<Entry>, key: LuaValue): (i: nat)
    ensures i <= |es|
    ensures i < |es| ==> es[i].key == key
    ensures forall j :: 0 <= j < i ==> es[j].key != key
  {
    if es == [] || es[0].key == key then 0 else 1 + IndexOf(es[1..], key)
  }

  function Get(t: LuaTable, i: int): LuaValue {
    var k := IndexOf(t.entries, Integer(i));
    if k < |t.entries| then t.entries[k].value else Nil
  }

  predicate Distinct(es: seq<Entry>) {
    forall i, j :: 0 <= i < j < |es| ==> es[i].key != es[j].key
  }

  /** A border: zero or a filled index, with the next index empty. */
  predicate IsBorder(t: LuaTable, n: nat) {
    (n == 0 || Get(t, n) != Nil) && Get(t, n + 1) == Nil
  }

  predicate Legal(t: LuaTable) {
    && Distinct(t.entries)
    && (forall i :: 0 <= i < |t.entries| ==> t.entries[i].key != Nil && t.entries[i].value != Nil)
    && IsBorder(t, t.border)
  }

  predicate LegalHeap(h: Heap) {
    forall r :: r in h ==> Legal(h[r])
  }

  lemma AtIsLegal(h: Heap, r: Ref)
    requires LegalHeap(h)
    ensures Legal(At(h, r))
  {
  }

  lemma Found(es: seq<Entry>, i: nat)
    requires Distinct(es) && i < |es|
    ensures IndexOf(es, es[i].key) == i
  {
  }

  predicate InRange(key: LuaValue, n: int) {
    key.Integer? && 0 < key.number <= n
  }

  /** All keys are integers of 1 to n. */
  predicate Within(es: seq<Entry>, n: int) {
    forall i :: 0 <= i < |es| ==> InRange(es[i].key, n)
  }

  /** What decides the question for a table without metafields. */
  predicate LooksLikeArray(t: LuaTable) {
    && t.entries != []
    && Within(t.entries, t.border)
    && (t.entries[0].key == Integer(1) ==> t.entries[|t.entries| - 1].key == Integer(t.border))
  }

  /** Whether a table is taken for an array, and of what length. */
  function ArrayShape(t: LuaTable): (bool, nat) {
    if t.markedArray then (true, t.border)
    else if t.markedObject || !LooksLikeArray(t) then (false, 0)
    else (true, t.border)
  }

  /** The values at indices 1 to n. */
  function Slots(t: LuaTable, n: nat): (vs: seq<LuaValue>)
    ensures |vs| == n
    ensures forall i :: 0 <= i < n ==> vs[i] == Get(t, i + 1)
  {
    seq(n, i requires 0 <= i < n => Get(t, i + 1))
  }

  /** Nothing is lost when a table is taken for an array: the slots are exactly its entries, and the last one is filled. */
  lemma ArrayShapeIsLossless(t: LuaTable)
    requires Legal(t) && !t.markedArray && ArrayShape(t).0
    ensures var n := ArrayShape(t).1;
      && n > 0 && Slots(t, n)[n - 1] != Nil && Within(t.entries, n)
      && (forall i :: 0 <= i < |t.entries| ==> Slots(t, n)[t.entries[i].key.number - 1] == t.entries[i].value)
      && (forall k :: 1 <= k <= n && Slots(t, n)[k - 1] != Nil ==> Entry(Integer(k), Slots(t, n)[k - 1]) in t.entries)
  {
    var n := ArrayShape(t).1;
    assert 1 <= t.entries[0].key.number <= n;
    forall i | 0 <= i < |t.entries|
      ensures Slots(t, n)[t.entries[i].key.number - 1] == t.entries[i].value
    {
      Found(t.entries, i);
    }
    forall k | 1 <= k <= n && Slots(t, n)[k - 1] != Nil
      ensures Entry(Integer(k), Slots(t, n)[k - 1]) in t.entries
    {
      var i := IndexOf(t.entries, Integer(k));
      assert t.entries[i] == Entry(Integer(k), Slots(t, n)[k - 1]);
    }
  }

  /** The keys are exactly 1 to n, in some order. */
  predicate Numbered(es: seq<Entry>, n: nat) {
    Within(es, n) && forall k :: 1 <= k <= n ==> IndexOf(es, Integer(k)) < |es|
  }

  lemma FilledOfNumbered(t: LuaTable, n: nat, k: int)
    requires Numbered(t.entries, n) && forall i :: 0 <= i < |t.entries| ==> t.entries[i].value != Nil
    ensures Get(t, k) != Nil <==> 1 <= k <= n
  {
  }

  lemma BorderOfNumbered(t: LuaTable, n: nat)
    requires Legal(t) && Numbered(t.entries, n)
    ensures t.border == n
  {
    FilledOfNumbered(t, n, t.border);
    FilledOfNumbered(t, n, t.border + 1);
  }

  /** A sequence is recognised unless iteration starts at 1 without ending at n. */
  lemma SequenceIsDetected(t: LuaTable, n: nat)
    requires Legal(t) && !t.markedArray && !t.markedObject && n > 0 && Numbered(t.entries, n)
    ensures ArrayShape(t) == (true, n)
      <==> (t.entries[0].key == Integer(1) ==> t.entries[|t.entries| - 1].key == Integer(n))
  {
    BorderOfNumbered(t, n);
    assert IndexOf(t.entries, Integer(1)) < |t.entries|;
  }

  /** A table without metafields whose keys are 1 to n. */
  predicate IsSequenceOf(t: LuaTable, n: nat) {
    Legal(t) && !t.markedArray && !t.markedObject && Numbered(t.entries, n)
  }

  /** Keys 1 to n in ascending order but for the last two, which change places. */
  function Swapped(n: nat, value: LuaValue): (es: seq<Entry>)
    requires n >= 3
    ensures |es| == n
    ensures forall i :: 0 <= i < n ==> es[i] == Entry(Integer(if i == n - 1 then n - 1 else if i == n - 2 then n else i + 1), value)
  {
    seq(n, i requires 0 <= i < n => Entry(Integer(if i == n - 1 then n - 1 else if i == n - 2 then n else i + 1), value))
  }

  lemma SwappedIsNumbered(n: nat, value: LuaValue)
    requires n >= 3
    ensures Distinct(Swapped(n, value)) && Numbered(Swapped(n, value), n)
  {
    var es := Swapped(n, value);
    forall k | 1 <= k <= n ensures IndexOf(es, Integer(k)) < |es| {
      assert es[if k == n then n - 2 else if k == n - 1 then n - 1 else k - 1].key == Integer(k);
    }
  }

  /** A sequence of three or more can be missed: 1, 3, 2 is taken for an object, and so is 1, ..., n, n - 1. */
  lemma SequenceIsMissed(n: nat, value: LuaValue) returns (t: LuaTable)
    requires n >= 3 && value != Nil
    ensures t == LuaTable(Swapped(n, value), n, false, false) && IsSequenceOf(t, n) && ArrayShape(t) == (false, 0)
  {
    t := LuaTable(Swapped(n, value), n, false, false);
    SwappedIsNumbered(n, value);
    FilledOfNumbered(t, n, n);
    FilledOfNumbered(t, n, n + 1);
    SequenceIsDetected(t, n);
  }

  lemma ShortSequenceIsDetected(t: LuaTable, n: nat)
    requires 0 < n <= 2 && IsSequenceOf(t, n)
    ensures ArrayShape(t) == (true, n)
  {
    SequenceIsDetected(t, n);
    var last := |t.entries| - 1;
    assert IndexOf(t.entries, Integer(n)) < |t.entries|;
    assert InRange(t.entries[last].key, n);
    assert last > 0 ==> t.entries[last].key != t.entries[0].key;
  }

  /** Sequences of one or two are always recognised, and of every other length some are not. */
  lemma SequencesAreDetectedExactly(n: nat)
    requires n > 0
    ensures (forall t: LuaTable :: IsSequenceOf(t, n) ==> ArrayShape(t) == (true, n)) <==> n <= 2
  {
    if n <= 2 {
      forall t: LuaTable | IsSequenceOf(t, n) ensures ArrayShape(t) == (true, n) {
        ShortSequenceIsDetected(t, n);
      }
    } else {
      var t := SequenceIsMissed(n, Boolean(true));
    }
  }

  predicate Ascending(es: seq<Entry>) {
    forall i :: 0 <= i < |es| ==> es[i].key == Integer(i + 1)
  }

  lemma AscendingIsNumbered(es: seq<Entry>)
    requires Ascending(es)
    ensures Distinct(es) && Numbered(es, |es|)
  {
    forall k | 1 <= k <= |es| ensures IndexOf(es, Integer(k)) < |es| {
      assert es[k - 1].key == Integer(k);
    }
  }

  /** A table with keys 1 to n iterated in ascending order is always taken for an array of n. */
  lemma AscendingIsDetected(t: LuaTable)
    requires Legal(t) && !t.markedArray && !t.markedObject && t.entries != [] && Ascending(t.entries)
    ensures ArrayShape(t) == (true, |t.entries|)
    ensures forall i :: 0 <= i < |t.entries| ==> Slots(t, |t.entries|)[i] == t.entries[i].value
  {
    AscendingIsNumbered(t.entries);
    SequenceIsDetected(t, |t.entries|);
    forall i | 0 <= i < |t.entries| ensures Slots(t, |t.entries|)[i] == t.entries[i].value {
      Found(t.entries, i);
    }
  }

  // Building tables

  /** A table filled in order from index 1. */
  predicate IsSequence(t: LuaTable) {
    Ascending(t.entries) && t.border == |t.entries| && !t.markedArray && !t.markedObject
  }

  function Appended(t: LuaTable, v: LuaValue): LuaTable {
    LuaTable(t.entries + [Entry(Integer(|t.entries| + 1), v)], |t.entries| + 1, false, false)
  }

  lemma FilledOfSequence(t: LuaTable, k: int)
    requires Ascending(t.entries) && forall i :: 0 <= i < |t.entries| ==> t.entries[i].value != Nil
    ensures Get(t, k) != Nil <==> 1 <= k <= |t.entries|
  {
    AscendingIsNumbered(t.entries);
  }

  lemma SequenceIsLegal(t: LuaTable)
    requires IsSequence(t) && forall i :: 0 <= i < |t.entries| ==> t.entries[i].value != Nil
    ensures Legal(t)
  {
    AscendingIsNumbered(t.entries);
    FilledOfSequence(t, t.border);
    FilledOfSequence(t, t.border + 1);
  }

  lemma AppendedIsSequence(t: LuaTable, v: LuaValue)
    requires Legal(t) && IsSequence(t) && v != Nil
    ensures Legal(Appended(t, v)) && IsSequence(Appended(t, v))
  {
    SequenceIsLegal(Appended(t, v));
  }

  function InsertAt(es: seq<Entry>, k: nat, e: Entry): (all: seq<Entry>)
    requires k <= |es|
    ensures |all| == |es| + 1 && all[k] == e
    ensures forall i :: 0 <= i < k ==> all[i] == es[i]
    ensures forall i :: k < i < |all| ==> all[i] == es[i - 1]
  {
    es[..k] + [e] + es[k..]
  }

  /** A table with an entry for a new string key, anywhere in its order. */
  function Inserted(t: LuaTable, k: nat, key: Text, v: LuaValue): LuaTable
    requires k <= |t.entries|
  {
    t.(entries := InsertAt(t.entries, k, Entry(String(key), v)))
  }

  lemma InsertedIsDistinct(es: seq<Entry>, k: nat, e: Entry)
    requires Distinct(es) && k <= |es| && IndexOf(es, e.key) == |es|
    ensures Distinct(InsertAt(es, k, e))
  {
  }

  lemma InsertedGets(t: LuaTable, k: nat, key: Text, v: LuaValue, i: int)
    requires k <= |t.entries|
    ensures Get(Inserted(t, k, key, v), i) == Get(t, i)
  {
    var es, all := t.entries, Inserted(t, k, key, v).entries;
    var m, n := IndexOf(es, Integer(i)), IndexOf(all, Integer(i));
    assert m < k ==> all[m] == es[m];
    assert k <= m < |es| ==> all[m + 1] == es[m];
    assert n < k ==> es[n] == all[n];
    assert k < n < |all| ==> es[n - 1] == all[n];
  }

  lemma InsertedIsLegal(t: LuaTable, k: nat, key: Text, v: LuaValue)
    requires Legal(t) && k <= |t.entries| && v != Nil && IndexOf(t.entries, String(key)) == |t.entries|
    ensures Legal(Inserted(t, k, key, v))
  {
    InsertedIsDistinct(t.entries, k, Entry(String(key), v));
    InsertedGets(t, k, key, v, t.border);
    InsertedGets(t, k, key, v, t.border + 1);
  }
}
