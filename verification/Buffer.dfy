/** The byte buffer: compaction and regrowth are hidden behind a tape that is written at its end and read at a cursor. */
module Buffer {
  import opened Wrappers
  import opened Bytes

  // The specification

  /** All bytes written that are still in effect, and how many of them were read. */
  datatype Tape = Tape(bytes: Text, cursor: nat)

  datatype Event =
    | Wrote(bytes: Text)
    | Took(count: nat)         // read or consumed, or sought forward
    | Fronted(bytes: Text)     // put in front of what is readable
    | WentBack(count: nat)     // sought backward
    | Reverted(count: nat)     // taken off the end

  predicate Possible(t: Tape, e: Event) {
    && t.cursor <= |t.bytes|
    && match e
       case Wrote(_) => true
       case Took(n) => t.cursor + n <= |t.bytes|
       case Fronted(bytes) => |bytes| <= t.cursor
       case WentBack(n) => n <= t.cursor
       case Reverted(n) => t.cursor + n <= |t.bytes|
  }

  function Edit(t: Tape, e: Event): (u: Tape)
    requires Possible(t, e)
    ensures u.cursor <= |u.bytes|
  {
    match e
    case Wrote(bytes) => Tape(t.bytes + bytes, t.cursor)
    case Took(n) => Tape(t.bytes, t.cursor + n)
    case Fronted(bytes) => Tape(t.bytes[..t.cursor - |bytes|] + bytes + t.bytes[t.cursor..], t.cursor - |bytes|)
    case WentBack(n) => Tape(t.bytes, t.cursor - n)
    case Reverted(n) => Tape(t.bytes[..|t.bytes| - n], t.cursor)
  }

  function Readable(t: Tape): Text
    requires t.cursor <= |t.bytes|
  {
    t.bytes[t.cursor..]
  }

  /** What can be read after each event, from what could be read before. */
  lemma WhatIsReadable(t: Tape, e: Event)
    requires Possible(t, e)
    ensures var (before, after) := (Readable(t), Readable(Edit(t, e)));
      match e
      case Wrote(bytes) => after == before + bytes
      case Took(n) => n <= |before| && after == before[n..]
      case Fronted(bytes) => after == bytes + before
      case WentBack(n) => |after| == |before| + n && after[n..] == before
      case Reverted(n) => n <= |before| && after == before[..|before| - n]
  {
  }

  /** What is taken can be gone back over, what is put in front is read next, and what is written can be taken off again. */
  lemma EventsUndo(t: Tape, n: nat, bytes: Text)
    requires t.cursor <= |t.bytes|
    ensures Possible(t, Took(n)) ==>
      Possible(Edit(t, Took(n)), WentBack(n)) && Edit(Edit(t, Took(n)), WentBack(n)) == t
    ensures Possible(Edit(t, Wrote(bytes)), Reverted(|bytes|)) && Edit(Edit(t, Wrote(bytes)), Reverted(|bytes|)) == t
    ensures Possible(t, Fronted(bytes)) ==>
      var u := Edit(t, Fronted(bytes)); Possible(u, Took(|bytes|)) && Readable(u)[..|bytes|] == bytes && Readable(Edit(u, Took(|bytes|))) == Readable(t)
  {
    assert (t.bytes + bytes)[..|t.bytes|] == t.bytes;
    if Possible(t, Fronted(bytes)) {
      WhatIsReadable(t, Fronted(bytes));
      WhatIsReadable(Edit(t, Fronted(bytes)), Took(|bytes|));
    }
  }

  /** What an event writes, and what it takes. */
  function Input(e: Event): Text {
    if e.Wrote? then e.bytes else []
  }

  function Output(t: Tape, e: Event): Text
    requires Possible(t, e)
  {
    if e.Took? then t.bytes[t.cursor..t.cursor + e.count] else []
  }

  predicate Run(t: Tape, es: seq<Event>)
    decreases es
  {
    es == [] || (Possible(t, es[0]) && Run(Edit(t, es[0]), es[1..]))
  }

  function After(t: Tape, es: seq<Event>): Tape
    requires Run(t, es)
    decreases es
  {
    if es == [] then t else After(Edit(t, es[0]), es[1..])
  }

  function Inputs(es: seq<Event>): Text {
    if es == [] then [] else Input(es[0]) + Inputs(es[1..])
  }

  function Outputs(t: Tape, es: seq<Event>): Text
    requires Run(t, es)
    decreases es
  {
    if es == [] then [] else Output(t, es[0]) + Outputs(Edit(t, es[0]), es[1..])
  }

  /** Over any run of writes and reads, the bytes read followed by the bytes still readable are the bytes written. */
  lemma {:induction false} ReadsFollowWrites(t: Tape, es: seq<Event>)
    requires t.cursor <= |t.bytes| && Run(t, es)
    requires forall i :: 0 <= i < |es| ==> es[i].Wrote? || es[i].Took?
    ensures After(t, es).cursor <= |After(t, es).bytes|
    ensures Outputs(t, es) + Readable(After(t, es)) == Readable(t) + Inputs(es)
    decreases es
  {
    if es == [] {
      assert [] + Readable(t) == Readable(t) + [];
    } else {
      var u := Edit(t, es[0]);
      ReadsFollowWrites(u, es[1..]);
      EventConserves(t, es[0]);
      Regrouped(Output(t, es[0]), Outputs(u, es[1..]), Readable(After(u, es[1..])), Readable(u), Inputs(es[1..]),
                Readable(t), Input(es[0]));
    }
  }

  lemma EventConserves(t: Tape, e: Event)
    requires Possible(t, e) && (e.Wrote? || e.Took?)
    ensures Output(t, e) + Readable(Edit(t, e)) == Readable(t) + Input(e)
  {
  }

  lemma Regrouped(a: Text, b: Text, c: Text, d: Text, e: Text, f: Text, g: Text)
    requires b + c == d + e && a + d == f + g
    ensures (a + b) + c == f + (g + e)
  {
    assert (a + b) + c == a + (b + c);
    assert (a + d) + e == a + (d + e);
    assert (f + g) + e == f + (g + e);
  }

  // The buffer

  const DEFAULT_RESERVE := 128

  /** Moves bytes down to the start of an array, lowest first. */
  method MoveDown(a: array<byte>, from: nat, count: nat)
    requires from + count <= a.Length
    modifies a
    ensures a[..count] == old(a[from..from + count])
  {
    ghost var before := a[..];
    for i := 0 to count
      invariant a[..i] == before[from..from + i]
      invariant forall k :: i <= k < a.Length ==> a[k] == before[k]
    {
      a[i] := a[from + i];
    }
  }

  function PutIn(all: Text, at: nat, data: Text): Text
    requires at + |data| <= |all|
  {
    all[..at] + data + all[at + |data|..]
  }

  /** Puts bytes into an array. */
  method PutAt(a: array<byte>, at: nat, data: Text)
    requires at + |data| <= a.Length
    modifies a
    ensures a[..] == PutIn(old(a[..]), at, data)
  {
    ghost var before := a[..];
    for i := 0 to |data|
      invariant forall k :: 0 <= k < a.Length ==> a[k] == if at <= k < at + i then data[k - at] else before[k]
    {
      a[at + i] := data[i];
    }
  }

  /** What a buffer stores is the end of its tape. */
  predicate Stores(stored: Text, rpos: nat, t: Tape) {
    rpos <= |stored| && rpos <= t.cursor <= |t.bytes| && stored == t.bytes[t.cursor - rpos..]
  }

  lemma StoresFronted(stored: Text, rpos: nat, t: Tape, data: Text)
    requires Stores(stored, rpos, t) && |data| <= rpos
    ensures Stores(stored[..rpos - |data|] + data + stored[rpos..], rpos - |data|, Edit(t, Fronted(data)))
    ensures Readable(Edit(t, Fronted(data))) == data + Readable(t)
  {
    var at := rpos - |data|;
    assert stored[..at] == t.bytes[t.cursor - rpos..t.cursor - |data|];
    assert stored[rpos..] == t.bytes[t.cursor..];
  }

  lemma StoresWritten(stored: Text, rpos: nat, t: Tape, data: Text)
    requires Stores(stored, rpos, t)
    ensures Stores(stored + data, rpos, Edit(t, Wrote(data)))
  {
  }

  lemma StoresCompacted(stored: Text, rpos: nat, t: Tape)
    requires Stores(stored, rpos, t)
    ensures Stores(stored[rpos..], 0, t)
  {
  }

  lemma StoresPut(all: Text, len: nat, rpos: nat, t: Tape, data: Text)
    requires len <= |all| && Stores(all[..len], rpos, t) && |data| <= rpos
    ensures Stores(PutIn(all, rpos - |data|, data)[..len], rpos - |data|, Edit(t, Fronted(data)))
    ensures Readable(Edit(t, Fronted(data))) == data + Readable(t)
  {
    var at := rpos - |data|;
    StoresFronted(all[..len], rpos, t, data);
    assert PutIn(all, at, data)[..len] == all[..len][..at] + data + all[..len][rpos..];
  }

  lemma StoresReadable(stored: Text, rpos: nat, t: Tape)
    requires Stores(stored, rpos, t)
    ensures Readable(t) == stored[rpos..]
  {
  }

  /** Room is made by giving up the bytes already read when the end alone has too little and both together have enough. */
  predicate Compacts(tail: int, rpos: nat, size: nat) {
    tail < size <= tail + rpos
  }

  lemma StoresPrefix(a: array<byte>, len: nat, rpos: nat, t: Tape)
    requires len <= a.Length
    ensures Stores(a[..len], rpos, t) <==> Stores(a[..][..len], rpos, t)
  {
    assert a[..][..len] == a[..len];
  }

  class Buffer {
    var store: array<byte> // its length is the capacity
    var len: nat
    var rpos: nat
    ghost var tape: Tape

    /** The stored bytes are the end of the tape, from as far back as is still remembered. */
    ghost predicate Valid()
      reads this, store
    {
      len <= store.Length && Stores(store[..len], rpos, tape)
    }

    constructor (capacity: nat)
      ensures Valid() && fresh(store) && tape == Tape([], 0) && rpos == 0
    {
      store := new byte[capacity];
      len, rpos, tape := 0, 0, Tape([], 0);
    }

    /** Moves the readable bytes to the front. */
    method Compact()
      requires Valid()
      modifies this`len, this`rpos, store
      ensures Valid() && rpos == 0 && len == old(len - rpos)
    {
      var count := len - rpos;
      StoresCompacted(store[..len], rpos, tape);
      assert store[..len][rpos..] == store[rpos..rpos + count];
      MoveDown(store, rpos, count);
      rpos := 0;
      len := count;
    }

    /** Copies all bytes, the front too, into a larger store. */
    method Grow(capacity: nat)
      requires Valid() && capacity >= len
      modifies this`store
      ensures Valid() && fresh(store) && store.Length == capacity && store[..len] == old(store[..len])
    {
      var larger := new byte[capacity];
      PutAt(larger, 0, store[..len]);
      assert larger[..len] == store[..len];
      store := larger;
    }

    /** Makes room at the end; what is readable stays, and a commit of that size will succeed. */
    method Prepare(size: nat)
      requires Valid()
      modifies this`len, this`rpos, this`store, store
      ensures Valid() && (store == old(store) || fresh(store))
      ensures store.Length - len >= size && len - rpos == old(len - rpos)
      ensures rpos == if Compacts(old(store.Length - len), old(rpos), size) then 0 else old(rpos)
    {
      var tail := store.Length - len;
      if tail < size {
        if tail + rpos >= size {
          Compact();
        } else {
          Grow(len + size);
        }
      }
    }

    /** Takes in bytes that were put after the end. */
    method Commit(size: nat) returns (ok: bool)
      requires Valid()
      modifies this`len, this`tape
      ensures Valid() && ok == (old(len) + size <= store.Length)
      ensures tape == if ok then Edit(old(tape), Wrote(store[old(len)..old(len) + size])) else old(tape)
    {
      ok := len + size <= store.Length;
      if ok {
        ghost var added := store[len..len + size];
        StoresWritten(store[..len], rpos, tape, added);
        assert store[..len + size] == store[..len] + added;
        tape := Edit(tape, Wrote(added));
        len := len + size;
      }
    }

    /** Puts bytes after the end and takes them in. */
    method Append(data: Text)
      requires Valid() && len + |data| <= store.Length
      modifies this`len, this`tape, store
      ensures Valid() && tape == Edit(old(tape), Wrote(data))
    {
      ghost var was := store[..];
      PutAt(store, len, data);
      assert store[..len] == was[..len];
      assert store[len..len + |data|] == data;
      var ok := Commit(|data|);
    }

    method WriteSlice(data: Text)
      requires Valid()
      modifies this, store
      ensures Valid() && (store == old(store) || fresh(store))
      ensures tape == Edit(old(tape), Wrote(data))
      ensures rpos == if Compacts(old(store.Length - len), old(rpos), |data|) then 0 else old(rpos)
    {
      Prepare(|data|);
      Append(data);
    }

    /** Vec::push: a full store is replaced by a larger one first. */
    method Write(c: byte)
      requires Valid()
      modifies this, store
      ensures Valid() && (store == old(store) || fresh(store)) && rpos == old(rpos)
      ensures tape == Edit(old(tape), Wrote([c]))
    {
      if len == store.Length {
        Grow(if len < 4 then 8 else 2 * len);
      }
      Append([c]);
    }

    /** Overwrites the last bytes that were read. */
    method PutFront(data: Text)
      requires Valid() && |data| <= rpos
      modifies this`rpos, this`tape, store
      ensures Valid() && rpos == old(rpos) - |data| && tape == Edit(old(tape), Fronted(data))
      ensures Readable(tape) == data + Readable(old(tape))
    {
      ghost var all := store[..];
      StoresPrefix(store, len, rpos, tape);
      StoresPut(all, len, rpos, tape, data);
      PutAt(store, rpos - |data|, data);
      StoresPrefix(store, len, rpos - |data|, Edit(tape, Fronted(data)));
      tape := Edit(tape, Fronted(data));
      rpos := rpos - |data|;
    }

    /** Prepends, exactly when that much of what was read is still there. */
    method WriteFront(data: Text) returns (ok: bool)
      requires Valid()
      modifies this`rpos, this`tape, store
      ensures Valid() && ok == (|data| <= old(rpos))
      ensures ok ==> rpos == old(rpos) - |data| && tape == Edit(old(tape), Fronted(data))
      ensures ok ==> Readable(tape) == data + Readable(old(tape))
      ensures !ok ==> rpos == old(rpos) && tape == old(tape)
    {
      if |data| > rpos {
        return false;
      }
      PutFront(data);
      ok := true;
    }

    method Read(count: nat) returns (bytes: Option<Text>)
      requires Valid()
      modifies this`rpos, this`tape
      ensures Valid()
      ensures bytes.Some? <==> count <= |Readable(old(tape))|
      ensures bytes.Some? ==>
        bytes.value == Readable(old(tape))[..count] && tape == Edit(old(tape), Took(count)) && rpos == old(rpos) + count
      ensures bytes.None? ==> tape == old(tape) && rpos == old(rpos)
    {
      StoresReadable(store[..len], rpos, tape);
      if len < rpos + count {
        return None;
      }
      bytes := Some(store[rpos..rpos + count]);
      assert store[..len][rpos..][..count] == store[rpos..rpos + count];
      tape := Edit(tape, Took(count));
      rpos := rpos + count;
    }

    /** Skips bytes, or does nothing when there are fewer. */
    method Consume(count: nat)
      requires Valid()
      modifies this`rpos, this`tape
      ensures Valid()
      ensures tape == if count <= |Readable(old(tape))| then Edit(old(tape), Took(count)) else old(tape)
      ensures rpos == if count <= |Readable(old(tape))| then old(rpos) + count else old(rpos)
    {
      StoresReadable(store[..len], rpos, tape);
      if len < rpos + count {
        return;
      }
      tape := Edit(tape, Took(count));
      rpos := rpos + count;
    }

    /** Moves forward over readable bytes, or back over bytes still there. */
    method Seek(pos: int) returns (ok: bool)
      requires Valid()
      modifies this`rpos, this`tape
      ensures Valid() && ok == (-(old(rpos) as int) <= pos <= |Readable(old(tape))|)
      ensures rpos == if ok then old(rpos) + pos else old(rpos)
      ensures tape == (if !ok then old(tape) else if pos < 0 then Edit(old(tape), WentBack(-pos)) else Edit(old(tape), Took(pos)))
    {
      StoresReadable(store[..len], rpos, tape);
      if pos < 0 {
        if rpos < -pos {
          return false;
        }
        tape := Edit(tape, WentBack(-pos));
        rpos := rpos + pos;
        return true;
      }
      if len < rpos + pos {
        return false;
      }
      tape := Edit(tape, Took(pos));
      rpos := rpos + pos;
      ok := true;
    }

    /** Takes readable bytes off the end; the source panics on more than there are. */
    method Revert(size: nat)
      requires Valid() && rpos + size <= len
      modifies this`len, this`tape
      ensures Valid() && tape == Edit(old(tape), Reverted(size))
    {
      tape := Edit(tape, Reverted(size));
      len := len - size;
    }
  }

  // Runs of a buffer's operations

  datatype Operation =
    | WriteSliceOp(bytes: Text)
    | WriteOp(c: byte)
    | WriteFrontOp(bytes: Text)
    | PrepareOp(size: nat)
    | CommitOp(size: nat)
    | ReadOp(count: nat)
    | ConsumeOp(count: nat)
    | SeekOp(pos: int)
    | RevertOp(size: nat)

  /** What an operation is to do to the tape; which bytes a commit takes in is up to the store. */
  function Aim(op: Operation): Option<Event> {
    match op
    case WriteSliceOp(bytes) => Some(Wrote(bytes))
    case WriteOp(c) => Some(Wrote([c]))
    case WriteFrontOp(bytes) => Some(Fronted(bytes))
    case ReadOp(count) => Some(Took(count))
    case ConsumeOp(count) => Some(Took(count))
    case SeekOp(pos) => Some(if pos < 0 then WentBack(-pos) else Took(pos))
    case RevertOp(size) => Some(Reverted(size))
    case _ => None
  }

  /** Operations that fail when bytes already read are no longer there, though the tape still has them. */
  predicate MayFail(op: Operation) {
    op.WriteFrontOp? || (op.SeekOp? && op.pos < 0)
  }

  /** What is carried out of an operation: its aim, exactly when the tape allows it, but for those that may fail. */
  predicate Answers(t: Tape, op: Operation, e: Option<Event>) {
    if op.CommitOp? then e.Some? ==> e.value.Wrote? && |e.value.bytes| == op.size && Possible(t, e.value)
    else if op.PrepareOp? then e.None?
    else if e.Some? then e == Aim(op) && Possible(t, e.value)
    else MayFail(op) || !Possible(t, Aim(op).value)
  }

  /** The tape after what was carried out; nothing changes it where nothing was. */
  function Step(t: Tape, e: Option<Event>): Tape {
    if e.Some? && Possible(t, e.value) then Edit(t, e.value) else t
  }

  function Then(t: Tape, done: seq<Option<Event>>): Tape {
    if done == [] then t else Step(Then(t, done[..|done| - 1]), done[|done| - 1])
  }

  /** What was carried out of each operation, one after another. */
  ghost predicate Explains(t: Tape, ops: seq<Operation>, done: seq<Option<Event>>) {
    && |ops| == |done|
    && (done == [] || (
      var n := |done| - 1;
      Explains(t, ops[..n], done[..n]) && Answers(Then(t, done[..n]), ops[n], done[n])))
  }

  /** The events that happened. */
  function Events(done: seq<Option<Event>>): seq<Event> {
    if done == [] then []
    else Events(done[..|done| - 1]) + if done[|done| - 1].Some? then [done[|done| - 1].value] else []
  }

  lemma {:induction false} RunMore(t: Tape, es: seq<Event>, e: Event)
    requires Run(t, es) && Possible(After(t, es), e)
    ensures Run(t, es + [e]) && After(t, es + [e]) == Edit(After(t, es), e)
    decreases es
  {
    if es == [] {
      assert [] + [e] == [e] && [e][1..] == [];
      assert After(Edit(t, e), []) == Edit(t, e);
    } else {
      RunMore(Edit(t, es[0]), es[1..], e);
      assert (es + [e])[1..] == es[1..] + [e];
    }
  }

  lemma {:induction false} OutputsMore(t: Tape, es: seq<Event>, e: Event)
    requires Run(t, es) && Possible(After(t, es), e) && Run(t, es + [e])
    ensures Outputs(t, es + [e]) == Outputs(t, es) + Output(After(t, es), e)
    decreases es
  {
    if es == [] {
      assert [] + [e] == [e] && [e][1..] == [];
      assert Outputs(Edit(t, e), []) == [];
    } else {
      assert (es + [e])[1..] == es[1..] + [e] && (es + [e])[0] == es[0];
      OutputsMore(Edit(t, es[0]), es[1..], e);
    }
  }

  lemma {:induction false} InputsMore(es: seq<Event>, e: Event)
    ensures Inputs(es + [e]) == Inputs(es) + Input(e)
  {
    if es == [] {
      assert [] + [e] == [e] && [e][1..] == [];
      assert Inputs([]) == [];
    } else {
      assert (es + [e])[1..] == es[1..] + [e];
      InputsMore(es[1..], e);
    }
  }

  /** An explained run is a run of the tape. */
  lemma {:induction false} ExplainedRuns(t: Tape, ops: seq<Operation>, done: seq<Option<Event>>)
    requires Explains(t, ops, done)
    ensures Run(t, Events(done)) && After(t, Events(done)) == Then(t, done)
    decreases |done|
  {
    if done != [] {
      var n := |done| - 1;
      ExplainedRuns(t, ops[..n], done[..n]);
      if done[n].Some? {
        RunMore(t, Events(done[..n]), done[n].value);
      } else {
        assert Events(done) == Events(done[..n]);
      }
    }
  }

  predicate WritesOrReads(op: Operation) {
    !op.WriteFrontOp? && !op.RevertOp? && !op.CommitOp? && !(op.SeekOp? && op.pos < 0)
  }

  /** What the operations write, in order. */
  function Written(ops: seq<Operation>): Text {
    if ops == [] then [] else Written(ops[..|ops| - 1]) + WrittenBy(ops[|ops| - 1])
  }

  function WrittenBy(op: Operation): Text {
    match op
    case WriteSliceOp(bytes) => bytes
    case WriteOp(c) => [c]
    case _ => []
  }

  lemma WritesAreDone(t: Tape, op: Operation, e: Option<Event>)
    requires t.cursor <= |t.bytes| && Answers(t, op, e) && WritesOrReads(op)
    ensures if e.Some? then (e.value.Wrote? || e.value.Took?) && Input(e.value) == WrittenBy(op) else WrittenBy(op) == []
  {
  }

  predicate GoesForward(t: Tape, es: seq<Event>) {
    t.cursor <= |t.bytes| && forall i :: 0 <= i < |es| ==> es[i].Wrote? || es[i].Took?
  }

  lemma WrittenMore(es: seq<Event>, ops: seq<Operation>, op: Operation, t: Tape, e: Option<Event>)
    requires GoesForward(t, es) && Inputs(es) == Written(ops) && Answers(t, op, e) && WritesOrReads(op)
    ensures var more := es + if e.Some? then [e.value] else [];
      GoesForward(Step(t, e), more) && Inputs(more) == Written(ops) + WrittenBy(op)
  {
    WritesAreDone(t, op, e);
    if e.Some? {
      InputsMore(es, e.value);
    } else {
      assert es + [] == es;
    }
  }

  predicate AllForward(ops: seq<Operation>) {
    forall i :: 0 <= i < |ops| ==> WritesOrReads(ops[i])
  }

  /** A run without steps back, and what was written in it. */
  predicate Forward(t: Tape, ops: seq<Operation>, done: seq<Option<Event>>) {
    GoesForward(Then(t, done), Events(done)) && Inputs(Events(done)) == Written(ops)
  }

  lemma ForwardMore(t: Tape, ops: seq<Operation>, done: seq<Option<Event>>, op: Operation, e: Option<Event>)
    requires Forward(t, ops, done) && Answers(Then(t, done), op, e) && WritesOrReads(op)
    ensures Forward(t, ops + [op], done + [e])
  {
    WrittenMore(Events(done), ops, op, Then(t, done), e);
    assert (ops + [op])[..|ops|] == ops && (done + [e])[..|done|] == done;
  }

  method PerformCommit(b: Buffer, size: nat) returns (e: Option<Event>)
    requires b.Valid()
    modifies b`len, b`tape
    ensures b.Valid() && Answers(old(b.tape), CommitOp(size), e) && b.tape == Step(old(b.tape), e)
  {
    var len := b.len;
    var ok := b.Commit(size);
    e := if ok then Some(Wrote(b.store[len..len + size])) else None;
  }

  method PerformRead(b: Buffer, count: nat) returns (e: Option<Event>, taken: Text)
    requires b.Valid()
    modifies b`rpos, b`tape
    ensures b.Valid() && Answers(old(b.tape), ReadOp(count), e) && b.tape == Step(old(b.tape), e)
    ensures taken == if e.Some? then Output(old(b.tape), e.value) else []
  {
    StoresReadable(b.store[..b.len], b.rpos, b.tape);
    e, taken := None, [];
    var bytes := b.Read(count);
    if bytes.Some? {
      e, taken := Some(Took(count)), bytes.value;
    }
  }

  method PerformSkip(b: Buffer, count: nat, consume: bool) returns (e: Option<Event>, taken: Text)
    requires b.Valid()
    modifies b`rpos, b`tape
    ensures b.Valid() && e == (if count <= |Readable(old(b.tape))| then Some(Took(count)) else None)
    ensures b.tape == Step(old(b.tape), e) && taken == if e.Some? then Output(old(b.tape), e.value) else []
  {
    StoresReadable(b.store[..b.len], b.rpos, b.tape);
    e, taken := None, [];
    if b.rpos + count <= b.len {
      e, taken := Some(Took(count)), b.store[..b.len][b.rpos..][..count];
    }
    if consume {
      b.Consume(count);
    } else {
      var _ := b.Seek(count);
    }
  }

  method PerformSeek(b: Buffer, pos: int) returns (e: Option<Event>, taken: Text)
    requires b.Valid()
    modifies b`rpos, b`tape
    ensures b.Valid() && Answers(old(b.tape), SeekOp(pos), e) && b.tape == Step(old(b.tape), e)
    ensures taken == if e.Some? then Output(old(b.tape), e.value) else []
  {
    if pos < 0 {
      var ok := b.Seek(pos);
      e, taken := if ok then Some(WentBack(-pos)) else None, [];
    } else {
      e, taken := PerformSkip(b, pos, false);
    }
  }

  /** One operation that writes. */
  method PerformWrite(b: Buffer, op: Operation) returns (e: Option<Event>)
    requires b.Valid() && (op.WriteSliceOp? || op.WriteOp? || op.WriteFrontOp? || op.CommitOp?)
    modifies b, b.store
    ensures b.Valid() && (b.store == old(b.store) || fresh(b.store))
    ensures Answers(old(b.tape), op, e) && b.tape == Step(old(b.tape), e)
  {
    match op
    case WriteSliceOp(bytes) =>
      b.WriteSlice(bytes);
      e := Some(Wrote(bytes));
    case WriteOp(c) =>
      b.Write(c);
      e := Some(Wrote([c]));
    case WriteFrontOp(bytes) =>
      var ok := b.WriteFront(bytes);
      e := if ok then Some(Fronted(bytes)) else None;
    case CommitOp(size) =>
      e := PerformCommit(b, size);
  }

  /** One operation, and the bytes it passes over. */
  method Perform(b: Buffer, op: Operation) returns (e: Option<Event>, taken: Text)
    requires b.Valid() && (op.RevertOp? ==> op.size <= |Readable(b.tape)|)
    modifies b, b.store
    ensures b.Valid() && (b.store == old(b.store) || fresh(b.store))
    ensures Answers(old(b.tape), op, e) && b.tape == Step(old(b.tape), e)
    ensures taken == if e.Some? then Output(old(b.tape), e.value) else []
  {
    e, taken := None, [];
    StoresReadable(b.store[..b.len], b.rpos, b.tape);
    match op
    case PrepareOp(size) => b.Prepare(size);
    case ReadOp(count) => e, taken := PerformRead(b, count);
    case ConsumeOp(count) => e, taken := PerformSkip(b, count, true);
    case SeekOp(pos) => e, taken := PerformSeek(b, pos);
    case RevertOp(size) =>
      b.Revert(size);
      e := Some(Reverted(size));
    case _ => e := PerformWrite(b, op);
  }

  lemma ExplainsMore(t: Tape, ops: seq<Operation>, done: seq<Option<Event>>, op: Operation, e: Option<Event>)
    requires Explains(t, ops, done) && Answers(Then(t, done), op, e)
    ensures Explains(t, ops + [op], done + [e]) && Then(t, done + [e]) == Step(Then(t, done), e)
    ensures Run(t, Events(done)) && Run(t, Events(done + [e]))
    ensures Outputs(t, Events(done + [e])) == Outputs(t, Events(done)) + if e.Some? then Output(Then(t, done), e.value) else []
  {
    ExplainedRuns(t, ops, done);
    var n := |done|;
    assert (ops + [op])[..n] == ops && (done + [e])[..n] == done;
    if e.Some? {
      RunMore(t, Events(done), e.value);
      OutputsMore(t, Events(done), e.value);
    } else {
      assert Events(done + [e]) == Events(done);
    }
  }

  /**
   * Where a run of operations has come to: the tape is the one before after the events that happened, and the bytes
   * passed over are its outputs.
   */
  ghost predicate Accounts(t: Tape, ops: seq<Operation>, done: seq<Option<Event>>, taken: Text, now: Tape) {
    && Explains(t, ops, done) && Run(t, Events(done))
    && now == After(t, Events(done)) && taken == Outputs(t, Events(done))
    && (AllForward(ops) ==> Forward(t, ops, done))
  }

  lemma AccountsMore(t: Tape, ops: seq<Operation>, done: seq<Option<Event>>, taken: Text, now: Tape, op: Operation, e: Option<Event>)
    requires Accounts(t, ops, done, taken, now) && Answers(now, op, e)
    ensures Accounts(t, ops + [op], done + [e], taken + if e.Some? then Output(now, e.value) else [], Step(now, e))
  {
    ExplainedRuns(t, ops, done);
    ExplainsMore(t, ops, done, op, e);
    ExplainedRuns(t, ops + [op], done + [e]);
    if AllForward(ops + [op]) {
      assert (ops + [op])[|ops|] == op && forall i :: 0 <= i < |ops| ==> (ops + [op])[i] == ops[i];
      ForwardMore(t, ops, done, op, e);
    }
  }

  lemma ForwardConserves(t: Tape, ops: seq<Operation>, done: seq<Option<Event>>, taken: Text, now: Tape)
    requires t.cursor <= |t.bytes| && Accounts(t, ops, done, taken, now) && AllForward(ops)
    ensures now.cursor <= |now.bytes| && taken + Readable(now) == Readable(t) + Written(ops)
  {
    ReadsFollowWrites(t, Events(done));
  }

  /** One more operation of a run. */
  method PerformNext(b: Buffer, op: Operation, done: seq<Option<Event>>, taken: Text, ghost t: Tape, ghost ops: seq<Operation>)
    returns (done': seq<Option<Event>>, taken': Text)
    requires b.Valid() && Accounts(t, ops, done, taken, b.tape) && !(op.RevertOp? && b.len - b.rpos < op.size)
    modifies b, b.store
    ensures b.Valid() && (b.store == old(b.store) || fresh(b.store))
    ensures |done'| == |done| + 1 && Accounts(t, ops + [op], done', taken', b.tape)
  {
    StoresReadable(b.store[..b.len], b.rpos, b.tape);
    ghost var was := b.tape;
    var e, more := Perform(b, op);
    AccountsMore(t, ops, done, taken, was, op, e);
    done', taken' := done + [e], taken + more;
  }

  /**
   * Any run of all the operations, with compaction and regrowth wherever they happen, up to a revert of more than
   * there is, on which the source panics: the tape afterwards is the one before after the events that happened, and
   * the bytes passed over are its outputs. So when nothing is put back or taken back, the bytes passed over followed
   * by those still readable are those readable before followed by those written.
   */
  method PerformAll(b: Buffer, ops: seq<Operation>) returns (done: seq<Option<Event>>, taken: Text)
    requires b.Valid()
    modifies b, b.store
    ensures b.Valid() && (b.store == old(b.store) || fresh(b.store))
    ensures |done| <= |ops| && Accounts(old(b.tape), ops[..|done|], done, taken, b.tape)
    ensures |done| < |ops| ==> ops[|done|].RevertOp? && ops[|done|].size > |Readable(b.tape)|
    ensures AllForward(ops) ==> taken + Readable(b.tape) == Readable(old(b.tape)) + Written(ops)
  {
    done, taken := [], [];
    var i := 0;
    while i < |ops| && !(ops[i].RevertOp? && b.len - b.rpos < ops[i].size)
      invariant i == |done| <= |ops|
      invariant b.Valid() && (b.store == old(b.store) || fresh(b.store))
      invariant Accounts(old(b.tape), ops[..i], done, taken, b.tape)
    {
      assert ops[..i] + [ops[i]] == ops[..i + 1];
      done, taken := PerformNext(b, ops[i], done, taken, old(b.tape), ops[..i]);
      i := i + 1;
    }
    StoresReadable(b.store[..b.len], b.rpos, b.tape);
    assert i == |ops| ==> ops[..i] == ops;
    if AllForward(ops) {
      ForwardConserves(old(b.tape), ops, done, taken, b.tape);
    }
  }
}
