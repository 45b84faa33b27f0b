/** The locks of a partition and its segments, one acquisition at a time:
    storage/src/partition.rs and storage/src/segment.rs. Every task works
    inside the partition's lock on its segment list; the locks inside a
    segment are taken in opposite orders by appending and by reading. */
module PartitionLocks {
  datatype Field = LogFile | Index | Size | NextOffset | SinceIndex | Mapping

  /** A record, by what tells it from others. */
  type Rec = nat

  datatype Lock = Segments | Inner(segment: nat, field: Field)

  /** One step of a task: a lock operation, or one change to the data. */
  datatype Op =
    | Take(lock: Lock, exclusive: bool)
    | Give(lock: Lock)
    | Store(segment: nat, record: Rec)
    | AddEntry(segment: nat)
    | Advance(segment: nat)
    | Resize(segment: nat)
    | Remap(segment: nat)
    | Push

  /** A segment's parts: the records in its log file, the number of its index
      entries, next_offset and size counted in records, and the records its
      memory map shows. */
  datatype Segment = Segment(stored: seq<Rec>, entries: nat, next: nat, size: nat, mapped: seq<Rec>)
  {
    predicate Settled() {
      |stored| == next == size && mapped == stored
    }
  }

  type Data = seq<Segment>

  function Do(data: Data, op: Op): Data {
    match op
    case Store(i, r) => if i < |data| then data[i := data[i].(stored := data[i].stored + [r])] else data
    case AddEntry(i) => if i < |data| then data[i := data[i].(entries := data[i].entries + 1)] else data
    case Advance(i) => if i < |data| then data[i := data[i].(next := data[i].next + 1)] else data
    case Resize(i) => if i < |data| then data[i := data[i].(size := |data[i].stored|)] else data
    case Remap(i) => if i < |data| then data[i := data[i].(mapped := data[i].stored)] else data
    case Push => data + [Segment([], 0, 0, 0, [])]
    case _ => data
  }

  function Outcome(data: Data, ops: seq<Op>): Data
    decreases |ops|
  {
    if |ops| == 0 then data else Outcome(Do(data, ops[0]), ops[1..])
  }

  ghost predicate AllSettled(data: Data) {
    |data| > 0 && forall i :: 0 <= i < |data| ==> data[i].Settled()
  }

  /** All records of the partition, in order. */
  function Contents(data: Data): seq<Rec> {
    if |data| == 0 then [] else Contents(data[..|data| - 1]) + data[|data| - 1].stored
  }

  // -------------------------------------------------------------- the programs

  datatype Kind = Append(batch: seq<Rec>) | Fetch | Flush | NextOffsetOf

  function Peek(segment: nat, field: Field): seq<Op> {
    [Take(Inner(segment, field), false), Give(Inner(segment, field))]
  }

  /** The record loop of an append; `indexed` says which records get an entry. */
  function StoreRecords(i: nat, batch: seq<Rec>, indexed: seq<bool>): seq<Op>
    requires |indexed| == |batch|
  {
    if |batch| == 0 then []
    else StoreOne(i, batch[0], indexed[0]) + StoreRecords(i, batch[1..], indexed[1..])
  }

  function StoreOne(i: nat, r: Rec, indexed: bool): seq<Op> {
    [Store(i, r)] + (if indexed then [AddEntry(i)] else []) + [Advance(i)]
  }

  function AppendLocks(i: nat): seq<Op> {
    [Take(Inner(i, LogFile), true), Take(Inner(i, Index), true), Take(Inner(i, Size), true),
     Take(Inner(i, NextOffset), true), Take(Inner(i, SinceIndex), true)]
  }

  function Gives(ls: seq<Lock>): seq<Op> {
    if |ls| == 0 then [] else [Give(ls[0])] + Gives(ls[1..])
  }

  /** The locks still held at the end of LogSegment::append, in the order in
      which they go: those of remap, then the append's own, last taken first. */
  function EndLocks(i: nat): seq<Lock> {
    [Inner(i, Mapping), Inner(i, LogFile), Inner(i, SinceIndex), Inner(i, NextOffset), Inner(i, Size), Inner(i, Index)]
  }

  /** The end of LogSegment::append: the log file's lock goes, remap takes it
      again for reading and the map's for writing, and then all go. */
  function AppendEnd(i: nat): seq<Op> {
    [Resize(i), Give(Inner(i, LogFile)), Take(Inner(i, LogFile), false), Take(Inner(i, Mapping), true), Remap(i)]
    + Gives(EndLocks(i))
  }

  function AppendTo(i: nat, batch: seq<Rec>, indexed: seq<bool>): seq<Op>
    requires |indexed| == |batch|
  {
    AppendLocks(i) + StoreRecords(i, batch, indexed) + AppendEnd(i)
  }

  /** Partition::append, with or without rotation; `last` is the active segment. */
  function AppendProgram(last: nat, rotates: bool, batch: seq<Rec>, indexed: seq<bool>): seq<Op>
    requires |indexed| == |batch|
  {
    Peek(last, Size)
    + (if rotates then Peek(last, NextOffset) + [Push] else [])
    + AppendTo(if rotates then last + 1 else last, batch, indexed)
    + [Give(Segments)]
  }

  /** LogSegment::read_batch, which may end after looking at next_offset. */
  function ReadBatch(i: nat, ends: bool): seq<Op> {
    Peek(i, NextOffset)
    + if ends then []
      else [Take(Inner(i, Mapping), false), Take(Inner(i, Index), false), Give(Inner(i, Index)), Give(Inner(i, Mapping))]
  }

  function FetchProgram(visits: seq<(nat, bool)>): seq<Op> {
    if |visits| == 0 then [Give(Segments)]
    else ReadBatch(visits[0].0, visits[0].1) + FetchProgram(visits[1..])
  }

  function FlushSegment(i: nat): seq<Op> {
    [Take(Inner(i, LogFile), true), Take(Inner(i, Index), true), Give(Inner(i, Index)), Give(Inner(i, LogFile))]
  }

  function FlushProgram(segments: seq<nat>): seq<Op> {
    if |segments| == 0 then [Give(Segments)]
    else FlushSegment(segments[0]) + FlushProgram(segments[1..])
  }

  function NextOffsetProgram(last: nat): seq<Op> {
    Peek(last, NextOffset) + [Give(Segments)]
  }

  /** What a task of this kind may do once it is inside. */
  ghost predicate IsProgram(kind: Kind, data: Data, ops: seq<Op>) {
    match kind
    case Append(batch) =>
      exists last: nat, rotates, indexed ::
        last + 1 == |data| && |indexed| == |batch| && ops == AppendProgram(last, rotates, batch, indexed)
    case Fetch => exists visits :: ops == FetchProgram(visits)
    case Flush => exists segments :: ops == FlushProgram(segments)
    case NextOffsetOf => exists last :: ops == NextOffsetProgram(last)
  }

  // ------------------------------------------------------------ the machine

  datatype Task =
    | Outside(kind: Kind)
    | Inside(kind: Kind, todo: seq<Op>, held: map<Lock, bool>)

  type Tasks = map<nat, Task>

  /** committed is what the appends that have ended were given, in order. */
  datatype State = State(data: Data, tasks: Tasks, committed: seq<Rec>)

  predicate Holds(tasks: Tasks, t: nat, l: Lock) {
    t in tasks && tasks[t].Inside? && l in tasks[t].held
  }

  predicate HoldsExclusively(tasks: Tasks, t: nat, l: Lock) {
    Holds(tasks, t, l) && tasks[t].held[l]
  }

  /** A lock can be taken next to those who hold it. The lock's own policy may
      make a task wait even then. */
  ghost predicate Compatible(tasks: Tasks, t: nat, l: Lock, exclusive: bool) {
    forall u :: u != t && Holds(tasks, u, l) ==> !exclusive && !HoldsExclusively(tasks, u, l)
  }

  datatype Event = Arrive(task: nat, kind: Kind) | Enter(task: nat, ops: seq<Op>) | Next(task: nat)

  ghost predicate Step(s: State, e: Event, s': State) {
    match e
    case Arrive(t, kind) => t !in s.tasks && s' == s.(tasks := s.tasks[t := Outside(kind)])
    case Enter(t, ops) =>
      && t in s.tasks && s.tasks[t].Outside?
      && Compatible(s.tasks, t, Segments, s.tasks[t].kind.Append?)
      && IsProgram(s.tasks[t].kind, s.data, ops)
      && s' == s.(tasks := s.tasks[t := Inside(s.tasks[t].kind, ops, map[Segments := s.tasks[t].kind.Append?])])
    case Next(t) =>
      && t in s.tasks && s.tasks[t].Inside? && |s.tasks[t].todo| > 0
      && var task := s.tasks[t];
      && var op := task.todo[0];
      && (op.Take? ==> Compatible(s.tasks, t, op.lock, op.exclusive))
      && s' == State(Do(s.data, op), s.tasks[t := After(task)],
                     s.committed + if op == Give(Segments) && task.kind.Append? then task.kind.batch else [])
  }

  function After(task: Task): Task
    requires task.Inside? && |task.todo| > 0
  {
    task.(todo := task.todo[1..], held := HeldNext(task.held, task.todo[0]))
  }

  function HeldNext(held: map<Lock, bool>, op: Op): map<Lock, bool> {
    match op
    case Take(l, exclusive) => held[l := exclusive]
    case Give(l) => held - {l}
    case _ => held
  }

  ghost predicate Run(states: seq<State>, events: seq<Event>) {
    && |states| == |events| + 1
    && states[0].tasks == map[] && AllSettled(states[0].data) && Contents(states[0].data) == states[0].committed
    && forall i :: 0 <= i < |events| ==> Step(states[i], events[i], states[i + 1])
  }

  // ----------------------------------------------------------- lock discipline

  function Rank(l: Lock): nat {
    match l
    case Segments => 0
    case Inner(_, field) => if field == Index then 2 else 1
  }

  /** A task that shares the segment list changes no data, takes locks in
      increasing rank, and gives back the outer lock last. */
  predicate Ordered(held: set<Lock>, ops: seq<Op>)
    decreases |ops|
  {
    if |ops| == 0 then held == {}
    else
      && Segments in held
      && match ops[0]
         case Take(l, _) => (forall h :: h in held ==> Rank(h) < Rank(l)) && Ordered(held + {l}, ops[1..])
         case Give(l) => l in held && (l == Segments ==> held == {Segments}) && Ordered(held - {l}, ops[1..])
         case _ => false
  }

  /** A task that owns the segment list takes no lock it has already, and
      gives back the outer lock last. */
  predicate Nested(held: set<Lock>, ops: seq<Op>)
    decreases |ops|
  {
    if |ops| == 0 then held == {}
    else
      && Segments in held
      && match ops[0]
         case Take(l, _) => l !in held && Nested(held + {l}, ops[1..])
         case Give(l) => l in held && (l == Segments ==> held == {Segments}) && Nested(held - {l}, ops[1..])
         case _ => Nested(held, ops[1..])
  }

  lemma PeekIsOrdered(i: nat, field: Field, rest: seq<Op>)
    requires Ordered({Segments}, rest)
    ensures Ordered({Segments}, Peek(i, field) + rest)
  {
    var l := Inner(i, field);
    var ops := Peek(i, field) + rest;
    assert ops[1..] == [Give(l)] + rest && ops[1..][1..] == rest;
    assert {Segments} + {l} - {l} == {Segments};
  }

  /** Two locks one inside the other. */
  lemma PairIsOrdered(a: Lock, b: Lock, exclusive: bool, rest: seq<Op>)
    requires 0 < Rank(a) < Rank(b) && Ordered({Segments}, rest)
    ensures Ordered({Segments}, [Take(a, exclusive), Take(b, exclusive), Give(b), Give(a)] + rest)
  {
    var ops := [Take(a, exclusive), Take(b, exclusive), Give(b), Give(a)] + rest;
    assert ops[4..] == rest && ops[3..][1..] == ops[4..] && ops[2..][1..] == ops[3..] && ops[1..][1..] == ops[2..];
    assert {Segments} + {a} - {a} == {Segments} && {Segments} + {a} + {b} - {b} == {Segments} + {a};
    assert Ordered({Segments} + {a}, ops[3..]);
    assert Ordered({Segments} + {a} + {b}, ops[2..]);
    assert Ordered({Segments} + {a}, ops[1..]);
  }

  lemma {:induction false} FetchIsOrdered(visits: seq<(nat, bool)>)
    ensures Ordered({Segments}, FetchProgram(visits))
  {
    if |visits| == 0 {
      assert {Segments} - {Segments} == {};
    } else {
      var i, rest := visits[0].0, FetchProgram(visits[1..]);
      FetchIsOrdered(visits[1..]);
      if visits[0].1 {
        PeekIsOrdered(i, NextOffset, rest);
        assert ReadBatch(i, true) + rest == Peek(i, NextOffset) + rest;
      } else {
        var locks := [Take(Inner(i, Mapping), false), Take(Inner(i, Index), false), Give(Inner(i, Index)), Give(Inner(i, Mapping))];
        PairIsOrdered(Inner(i, Mapping), Inner(i, Index), false, rest);
        PeekIsOrdered(i, NextOffset, locks + rest);
        assert ReadBatch(i, false) + rest == Peek(i, NextOffset) + (locks + rest);
      }
    }
  }

  lemma {:induction false} FlushIsOrdered(segments: seq<nat>)
    ensures Ordered({Segments}, FlushProgram(segments))
  {
    if |segments| == 0 {
      assert {Segments} - {Segments} == {};
    } else {
      FlushIsOrdered(segments[1..]);
      PairIsOrdered(Inner(segments[0], LogFile), Inner(segments[0], Index), true, FlushProgram(segments[1..]));
    }
  }

  lemma NextOffsetIsOrdered(last: nat)
    ensures Ordered({Segments}, NextOffsetProgram(last))
  {
    assert {Segments} - {Segments} == {};
    PeekIsOrdered(last, NextOffset, [Give(Segments)]);
  }

  // ------------------------------------------------- the program of an append

  lemma PeekIsNested(i: nat, field: Field, rest: seq<Op>)
    requires Nested({Segments}, rest)
    ensures Nested({Segments}, Peek(i, field) + rest)
  {
    var l := Inner(i, field);
    var ops := Peek(i, field) + rest;
    assert ops[1..] == [Give(l)] + rest && ops[1..][1..] == rest;
    assert {Segments} + {l} - {l} == {Segments};
  }

  lemma {:induction false} RecordsAreNested(held: set<Lock>, i: nat, batch: seq<Rec>, indexed: seq<bool>, rest: seq<Op>)
    requires Segments in held && Nested(held, rest) && |indexed| == |batch|
    ensures Nested(held, StoreRecords(i, batch, indexed) + rest)
    decreases |batch|
  {
    if |batch| == 0 {
      assert StoreRecords(i, batch, indexed) + rest == rest;
    } else {
      var more := StoreRecords(i, batch[1..], indexed[1..]) + rest;
      RecordsAreNested(held, i, batch[1..], indexed[1..], rest);
      OneIsNested(held, i, batch[0], indexed[0], more);
      assert StoreRecords(i, batch, indexed) + rest == StoreOne(i, batch[0], indexed[0]) + more;
    }
  }

  lemma OneIsNested(held: set<Lock>, i: nat, r: Rec, indexed: bool, more: seq<Op>)
    requires Segments in held && Nested(held, more)
    ensures Nested(held, StoreOne(i, r, indexed) + more)
  {
    var ops := StoreOne(i, r, indexed) + more;
    if indexed {
      assert ops[1..] == [AddEntry(i), Advance(i)] + more && ops[1..][1..] == [Advance(i)] + more;
      assert ops[1..][1..][1..] == more;
      assert Nested(held, ops[1..][1..]);
    } else {
      assert ops[1..] == [Advance(i)] + more && ops[1..][1..] == more;
    }
  }

  lemma {:induction false} GivesAreNested(ls: seq<Lock>)
    requires Segments !in ls && forall j, k :: 0 <= j < k < |ls| ==> ls[j] != ls[k]
    ensures Nested({Segments} + (set l | l in ls), Gives(ls) + [Give(Segments)])
  {
    var held := {Segments} + set l | l in ls;
    var ops := Gives(ls) + [Give(Segments)];
    if |ls| == 0 {
      assert held == {Segments} && held - {Segments} == {} && ops == [Give(Segments)] && ops[1..] == [];
    } else {
      GivesAreNested(ls[1..]);
      assert ls == [ls[0]] + ls[1..];
      assert held - {ls[0]} == {Segments} + set l | l in ls[1..];
      assert ops[1..] == Gives(ls[1..]) + [Give(Segments)] && ls[0] in held;
    }
  }

  function InnerLocks(i: nat): set<Lock> {
    {Inner(i, SinceIndex), Inner(i, NextOffset), Inner(i, Size), Inner(i, Index)}
  }

  lemma EndIsNested(i: nat)
    ensures Nested({Segments, Inner(i, LogFile)} + InnerLocks(i), AppendEnd(i) + [Give(Segments)])
  {
    var log, mapping := Inner(i, LogFile), Inner(i, Mapping);
    var outer := {Segments} + InnerLocks(i);
    GivesAreNested(EndLocks(i));
    assert {Segments} + (set l | l in EndLocks(i)) == outer + {log} + {mapping};
    var last := Gives(EndLocks(i)) + [Give(Segments)];
    RemapIsNested(i, outer, last);
    assert AppendEnd(i) + [Give(Segments)]
        == [Resize(i), Give(log), Take(log, false), Take(mapping, true), Remap(i)] + last;
    assert {Segments, log} + InnerLocks(i) == outer + {log};
  }

  lemma RemapIsNested(i: nat, outer: set<Lock>, last: seq<Op>)
    requires Segments in outer && Inner(i, LogFile) !in outer && Inner(i, Mapping) !in outer
    requires Nested(outer + {Inner(i, LogFile)} + {Inner(i, Mapping)}, last)
    ensures Nested(outer + {Inner(i, LogFile)},
                   [Resize(i), Give(Inner(i, LogFile)),
                    Take(Inner(i, LogFile), false), Take(Inner(i, Mapping), true), Remap(i)] + last)
  {
    var log, mapping := Inner(i, LogFile), Inner(i, Mapping);
    var ops := [Resize(i), Give(log), Take(log, false), Take(mapping, true), Remap(i)] + last;
    assert ops[4..][1..] == last && ops[3..][1..] == ops[4..] && ops[2..][1..] == ops[3..] && ops[1..][1..] == ops[2..];
    assert Nested(outer + {log} + {mapping}, ops[4..]);
    assert Nested(outer + {log}, ops[3..]);
    assert Nested(outer, ops[2..]);
    assert outer + {log} - {log} == outer;
    assert Nested(outer + {log}, ops[1..]);
  }

  lemma LocksAreNested(i: nat, rest: seq<Op>)
    requires Nested({Segments, Inner(i, LogFile)} + InnerLocks(i), rest)
    ensures Nested({Segments}, AppendLocks(i) + rest)
  {
    var ops := AppendLocks(i) + rest;
    assert ops[4..][1..] == rest && ops[3..][1..] == ops[4..] && ops[2..][1..] == ops[3..] && ops[1..][1..] == ops[2..];
    var h1 := {Segments} + {Inner(i, LogFile)};
    var h2 := h1 + {Inner(i, Index)};
    var h3 := h2 + {Inner(i, Size)};
    var h4 := h3 + {Inner(i, NextOffset)};
    assert h4 + {Inner(i, SinceIndex)} == {Segments, Inner(i, LogFile)} + InnerLocks(i);
    assert Nested(h4, ops[4..]);
    assert Nested(h3, ops[3..]);
    assert Nested(h2, ops[2..]);
    assert Nested(h1, ops[1..]);
  }

  lemma AppendToIsNested(i: nat, batch: seq<Rec>, indexed: seq<bool>)
    requires |indexed| == |batch|
    ensures Nested({Segments}, AppendTo(i, batch, indexed) + [Give(Segments)])
  {
    var end := AppendEnd(i) + [Give(Segments)];
    EndIsNested(i);
    RecordsAreNested({Segments, Inner(i, LogFile)} + InnerLocks(i), i, batch, indexed, end);
    LocksAreNested(i, StoreRecords(i, batch, indexed) + end);
    assert AppendTo(i, batch, indexed) + [Give(Segments)] == AppendLocks(i) + (StoreRecords(i, batch, indexed) + end);
  }

  lemma RotationIsNested(last: nat, tail: seq<Op>)
    requires Nested({Segments}, tail)
    ensures Nested({Segments}, Peek(last, NextOffset) + [Push] + tail)
  {
    assert ([Push] + tail)[1..] == tail;
    assert Nested({Segments}, [Push] + tail);
    PeekIsNested(last, NextOffset, [Push] + tail);
    assert Peek(last, NextOffset) + [Push] + tail == Peek(last, NextOffset) + ([Push] + tail);
  }

  lemma AppendIsNested(last: nat, rotates: bool, batch: seq<Rec>, indexed: seq<bool>)
    requires |indexed| == |batch|
    ensures Nested({Segments}, AppendProgram(last, rotates, batch, indexed))
  {
    var tail := AppendTo(if rotates then last + 1 else last, batch, indexed) + [Give(Segments)];
    AppendToIsNested(if rotates then last + 1 else last, batch, indexed);
    if rotates {
      RotationIsNested(last, tail);
      PeekIsNested(last, Size, Peek(last, NextOffset) + [Push] + tail);
      assert AppendProgram(last, true, batch, indexed) == Peek(last, Size) + (Peek(last, NextOffset) + [Push] + tail);
    } else {
      PeekIsNested(last, Size, tail);
      assert AppendProgram(last, false, batch, indexed) == Peek(last, Size) + tail;
    }
  }

  // ------------------------------------------------ what an append does in all

  lemma {:induction false} OutcomeConcat(data: Data, a: seq<Op>, b: seq<Op>)
    ensures Outcome(data, a + b) == Outcome(Outcome(data, a), b)
    decreases |a|
  {
    if |a| == 0 {
      assert a + b == b;
    } else {
      assert (a + b)[1..] == a[1..] + b;
      OutcomeConcat(Do(data, a[0]), a[1..], b);
    }
  }

  lemma {:induction false} LocksChangeNothing(data: Data, ops: seq<Op>)
    requires forall k :: 0 <= k < |ops| ==> ops[k].Take? || ops[k].Give?
    ensures Outcome(data, ops) == data
    decreases |ops|
  {
    if |ops| > 0 {
      LocksChangeNothing(data, ops[1..]);
    }
  }

  lemma {:induction false} GivesAreLockOps(ls: seq<Lock>)
    ensures forall k :: 0 <= k < |Gives(ls)| ==> Gives(ls)[k].Give?
  {
    if |ls| > 0 {
      GivesAreLockOps(ls[1..]);
    }
  }

  /** The record loop adds its records to the file and to next_offset alike. */
  lemma {:induction false} RecordsAreStored(data: Data, i: nat, batch: seq<Rec>, indexed: seq<bool>)
    requires i < |data| && |indexed| == |batch|
    ensures var after := Outcome(data, StoreRecords(i, batch, indexed));
            && |after| == |data|
            && after == data[i := after[i]]
            && after[i].stored == data[i].stored + batch && after[i].next == data[i].next + |batch|
    decreases |batch|
  {
    if |batch| > 0 {
      var mid := Outcome(data, StoreOne(i, batch[0], indexed[0]));
      OneRecord(data, i, batch[0], indexed[0]);
      OutcomeConcat(data, StoreOne(i, batch[0], indexed[0]), StoreRecords(i, batch[1..], indexed[1..]));
      RecordsAreStored(mid, i, batch[1..], indexed[1..]);
      assert data[i].stored + batch == data[i].stored + [batch[0]] + batch[1..];
    }
  }

  lemma {:induction false} OneRecord(data: Data, i: nat, r: Rec, indexed: bool)
    requires i < |data|
    ensures var after := Outcome(data, StoreOne(i, r, indexed));
            && |after| == |data| && after == data[i := after[i]]
            && after[i].stored == data[i].stored + [r] && after[i].next == data[i].next + 1
  {
    var ops := StoreOne(i, r, indexed);
    var d1 := Do(data, Store(i, r));
    if indexed {
      var d2 := Do(d1, AddEntry(i));
      assert ops[1..] == [AddEntry(i), Advance(i)] && ops[1..][1..] == [Advance(i)] && ops[1..][1..][1..] == [];
      assert Outcome(d1, ops[1..]) == Outcome(d2, ops[1..][1..]) == Do(d2, Advance(i));
    } else {
      assert ops[1..] == [Advance(i)] && ops[1..][1..] == [];
      assert Outcome(d1, ops[1..]) == Do(d1, Advance(i));
    }
  }

  lemma {:induction false} EndSettles(data: Data, i: nat)
    requires i < |data|
    ensures Outcome(data, AppendEnd(i)) == data[i := data[i].(size := |data[i].stored|, mapped := data[i].stored)]
  {
    var log, mapping := Inner(i, LogFile), Inner(i, Mapping);
    var locks := [Give(log), Take(log, false), Take(mapping, true)];
    var d1 := Do(data, Resize(i));
    var d2 := Do(d1, Remap(i));
    GivesAreLockOps(EndLocks(i));
    LocksChangeNothing(d2, Gives(EndLocks(i)));
    LocksChangeNothing(d1, locks);
    OutcomeConcat(d1, locks, [Remap(i)] + Gives(EndLocks(i)));
    assert ([Remap(i)] + Gives(EndLocks(i)))[1..] == Gives(EndLocks(i));
    assert AppendEnd(i) == [Resize(i)] + (locks + ([Remap(i)] + Gives(EndLocks(i))));
    assert AppendEnd(i)[1..] == locks + ([Remap(i)] + Gives(EndLocks(i)));
  }

  lemma {:induction false} ContentsGrow(data: Data, x: Segment, batch: seq<Rec>)
    requires |data| > 0 && x.stored == data[|data| - 1].stored + batch
    ensures Contents(data[|data| - 1 := x]) == Contents(data) + batch
  {
    var n := |data| - 1;
    assert data[n := x][..n] == data[..n];
    assert Contents(data[..n]) + (data[n].stored + batch) == Contents(data[..n]) + data[n].stored + batch;
  }

  /** From settled data an append to the last segment ends in settled data that
      holds its own records behind those that were there. */
  lemma {:induction false} AppendToSettles(data: Data, i: nat, batch: seq<Rec>, indexed: seq<bool>)
    requires AllSettled(data) && i + 1 == |data| && |indexed| == |batch|
    ensures var after := Outcome(data, AppendTo(i, batch, indexed) + [Give(Segments)]);
            AllSettled(after) && Contents(after) == Contents(data) + batch
  {
    var mid := Outcome(data, StoreRecords(i, batch, indexed));
    var last := Outcome(mid, AppendEnd(i));
    RecordsAreStored(data, i, batch, indexed);
    EndSettles(mid, i);
    LocksChangeNothing(data, AppendLocks(i));
    LocksChangeNothing(last, [Give(Segments)]);
    OutcomeConcat(data, AppendLocks(i), StoreRecords(i, batch, indexed));
    OutcomeConcat(data, AppendLocks(i) + StoreRecords(i, batch, indexed), AppendEnd(i));
    OutcomeConcat(data, AppendTo(i, batch, indexed), [Give(Segments)]);
    assert last == data[i := last[i]];
    ContentsGrow(data, last[i], batch);
  }

  lemma {:induction false} AfterLookups(data: Data, lookups: seq<Op>, ops: seq<Op>)
    requires forall k :: 0 <= k < |lookups| ==> lookups[k].Take? || lookups[k].Give?
    ensures Outcome(data, lookups + ops) == Outcome(data, ops)
  {
    LocksChangeNothing(data, lookups);
    OutcomeConcat(data, lookups, ops);
  }

  lemma {:induction false} PushSettles(data: Data, ops: seq<Op>)
    requires AllSettled(data)
    ensures var grown := Do(data, Push);
            && AllSettled(grown) && |grown| == |data| + 1 && Contents(grown) == Contents(data)
            && Outcome(data, [Push] + ops) == Outcome(grown, ops)
  {
    assert Do(data, Push)[..|data|] == data;
    assert ([Push] + ops)[1..] == ops;
  }

  lemma {:induction false} AppendSettles(data: Data, last: nat, rotates: bool, batch: seq<Rec>, indexed: seq<bool>)
    requires AllSettled(data) && last + 1 == |data| && |indexed| == |batch|
    ensures var after := Outcome(data, AppendProgram(last, rotates, batch, indexed));
            AllSettled(after) && Contents(after) == Contents(data) + batch
  {
    var i := if rotates then last + 1 else last;
    var tail := AppendTo(i, batch, indexed) + [Give(Segments)];
    if rotates {
      var lookups := Peek(last, Size) + Peek(last, NextOffset);
      assert AppendProgram(last, rotates, batch, indexed) == lookups + ([Push] + tail);
      AfterLookups(data, lookups, [Push] + tail);
      PushSettles(data, tail);
      AppendToSettles(Do(data, Push), i, batch, indexed);
    } else {
      assert AppendProgram(last, rotates, batch, indexed) == Peek(last, Size) + tail;
      AfterLookups(data, Peek(last, Size), tail);
      AppendToSettles(data, i, batch, indexed);
    }
  }

  // ------------------------------------------------------------- the invariant

  /** What is left of a task's program keeps the discipline of its kind. */
  predicate Disciplined(task: Task) {
    task.Inside? ==>
      && (if task.kind.Append? then Nested(task.held.Keys, task.todo) else Ordered(task.held.Keys, task.todo))
      && (Segments in task.held ==> task.held[Segments] == task.kind.Append?)
  }

  ghost predicate Exclusion(tasks: Tasks) {
    forall t, u, l :: t != u && Holds(tasks, t, l) && Holds(tasks, u, l) ==> !HoldsExclusively(tasks, t, l)
  }

  /** t owns the segment list and will leave everything settled behind, with
      its own records added. */
  ghost predicate Owns(s: State, t: nat) {
    HoldsExclusively(s.tasks, t, Segments) && s.tasks[t].kind.Append?
    && var after := Outcome(s.data, s.tasks[t].todo);
       AllSettled(after) && Contents(after) == s.committed + s.tasks[t].kind.batch
  }

  ghost predicate Unowned(tasks: Tasks) {
    forall t :: !HoldsExclusively(tasks, t, Segments)
  }

  ghost predicate Invariant(s: State) {
    && (forall t :: t in s.tasks ==> Disciplined(s.tasks[t]))
    && Exclusion(s.tasks)
    && (if Unowned(s.tasks) then AllSettled(s.data) && Contents(s.data) == s.committed
        else exists t :: Owns(s, t))
  }

  lemma ProgramsAreDisciplined(kind: Kind, data: Data, ops: seq<Op>)
    requires IsProgram(kind, data, ops)
    ensures Disciplined(Inside(kind, ops, map[Segments := kind.Append?]))
  {
    var held := map[Segments := kind.Append?];
    assert held.Keys == {Segments};
    match kind
    case Append(batch) =>
      var last: nat, rotates, indexed :|
        last + 1 == |data| && |indexed| == |batch| && ops == AppendProgram(last, rotates, batch, indexed);
      AppendIsNested(last, rotates, batch, indexed);
    case Fetch =>
      var visits :| ops == FetchProgram(visits);
      FetchIsOrdered(visits);
    case Flush =>
      var segments :| ops == FlushProgram(segments);
      FlushIsOrdered(segments);
    case NextOffsetOf =>
      var last :| ops == NextOffsetProgram(last);
      NextOffsetIsOrdered(last);
  }

  lemma StaysDisciplined(task: Task)
    requires task.Inside? && |task.todo| > 0 && Disciplined(task)
    ensures Disciplined(After(task)) && Segments in task.held
    ensures !task.kind.Append? ==> task.todo[0].Take? || task.todo[0].Give?
    ensures task.todo[0] == Give(Segments) ==> After(task).held == map[] && task.todo[1..] == []
    ensures task.todo[0] != Give(Segments) ==> Segments in After(task).held
  {
    match task.todo[0]
    case Take(l, exclusive) => assert task.held[l := exclusive].Keys == task.held.Keys + {l};
    case Give(l) =>
      assert (task.held - {l}).Keys == task.held.Keys - {l};
      if l == Segments {
        assert (task.held - {l}).Keys == {};
      }
    case _ =>
  }

  lemma ExclusionKept(tasks: Tasks, t: nat, task: Task)
    requires Exclusion(tasks)
    requires task.Inside? ==> forall l :: l in task.held ==>
               (Holds(tasks, t, l) && task.held[l] == tasks[t].held[l]) || Compatible(tasks, t, l, task.held[l])
    ensures Exclusion(tasks[t := task])
  {
    var tasks' := tasks[t := task];
    assert forall u, l :: u != t ==>
        Holds(tasks', u, l) == Holds(tasks, u, l) && HoldsExclusively(tasks', u, l) == HoldsExclusively(tasks, u, l);
  }

  lemma EnterKeepsInvariant(s: State, t: nat, ops: seq<Op>, s': State)
    requires Invariant(s) && Step(s, Enter(t, ops), s')
    ensures Invariant(s')
  {
    var kind := s.tasks[t].kind;
    ProgramsAreDisciplined(kind, s.data, ops);
    ExclusionKept(s.tasks, t, s'.tasks[t]);
    assert forall u :: u != t ==> Holds(s'.tasks, u, Segments) == Holds(s.tasks, u, Segments)
                                  && HoldsExclusively(s'.tasks, u, Segments) == HoldsExclusively(s.tasks, u, Segments);
    assert !Holds(s.tasks, t, Segments);
    assert Unowned(s.tasks);
    if kind.Append? {
      var last: nat, rotates, indexed :|
        last + 1 == |s.data| && |indexed| == |kind.batch| && ops == AppendProgram(last, rotates, kind.batch, indexed);
      AppendSettles(s.data, last, rotates, kind.batch, indexed);
      assert Owns(s', t);
    }
  }

  lemma OwnerKeepsInvariant(s: State, t: nat, s': State)
    requires Invariant(s) && Step(s, Next(t), s') && s.tasks[t].kind.Append?
    ensures Invariant(s')
  {
    var task := s.tasks[t];
    StaysDisciplined(task);
    ExclusionKept(s.tasks, t, After(task));
    assert HoldsExclusively(s.tasks, t, Segments);
    var owner :| Owns(s, owner);
    assert owner == t;
    forall u | u != t
      ensures !HoldsExclusively(s'.tasks, u, Segments)
    {
      assert HoldsExclusively(s'.tasks, u, Segments) == HoldsExclusively(s.tasks, u, Segments);
    }
    assert Outcome(s.data, task.todo) == Outcome(s'.data, task.todo[1..]);
    if task.todo[0] != Give(Segments) {
      assert Owns(s', t);
    } else {
      assert Outcome(s'.data, []) == s'.data;
    }
  }

  lemma SharerKeepsInvariant(s: State, t: nat, s': State)
    requires Invariant(s) && Step(s, Next(t), s') && !s.tasks[t].kind.Append?
    ensures Invariant(s')
  {
    var task := s.tasks[t];
    StaysDisciplined(task);
    ExclusionKept(s.tasks, t, After(task));
    assert Holds(s.tasks, t, Segments);
    assert Unowned(s.tasks);
    assert forall u :: HoldsExclusively(s'.tasks, u, Segments) ==> u == t || HoldsExclusively(s.tasks, u, Segments);
    assert Unowned(s'.tasks);
  }

  lemma StepKeepsInvariant(s: State, e: Event, s': State)
    requires Invariant(s) && Step(s, e, s')
    ensures Invariant(s')
  {
    match e
    case Arrive(t, kind) =>
      assert forall u, l :: Holds(s'.tasks, u, l) == Holds(s.tasks, u, l)
                            && HoldsExclusively(s'.tasks, u, l) == HoldsExclusively(s.tasks, u, l);
      if !Unowned(s.tasks) {
        var owner :| Owns(s, owner);
        assert Owns(s', owner);
      }
    case Enter(t, ops) => EnterKeepsInvariant(s, t, ops, s');
    case Next(t) =>
      if s.tasks[t].kind.Append? {
        OwnerKeepsInvariant(s, t, s');
      } else {
        SharerKeepsInvariant(s, t, s');
      }
  }

  lemma {:induction false} InvariantHolds(states: seq<State>, events: seq<Event>, i: nat)
    requires Run(states, events) && i < |states|
    ensures Invariant(states[i])
  {
    if i > 0 {
      InvariantHolds(states, events, i - 1);
      assert Step(states[i - 1], events[i - 1], states[i]);
      StepKeepsInvariant(states[i - 1], events[i - 1], states[i]);
    }
  }

  // ------------------------------------------------------------------- results

  ghost predicate Free(tasks: Tasks, l: Lock) {
    forall t :: !Holds(tasks, t, l)
  }

  predicate Unfinished(tasks: Tasks, t: nat) {
    t in tasks && (tasks[t].Outside? || |tasks[t].todo| > 0)
  }

  /** Nothing stands in the way of t's next step: it takes no lock, or one
      that nobody holds. */
  ghost predicate Ready(tasks: Tasks, t: nat) {
    && Unfinished(tasks, t)
    && match tasks[t]
       case Outside(_) => Free(tasks, Segments)
       case Inside(_, todo, _) => todo[0].Take? ==> Free(tasks, todo[0].lock)
  }

  /** A task inside that waits for a lock in use waits for an index, and whoever
      has that index is not waiting. */
  lemma SharersDoNotCircle(s: State, t: nat)
    requires Invariant(s) && Unowned(s.tasks)
    requires Unfinished(s.tasks, t) && s.tasks[t].Inside?
    ensures exists u :: Ready(s.tasks, u)
  {
    if !Ready(s.tasks, t) {
      var l := s.tasks[t].todo[0].lock;
      var u :| Holds(s.tasks, u, l);
      SharerIsWaiting(s, t);
      SharerIsWaiting(s, u);
      if !Ready(s.tasks, u) {
        var l' := s.tasks[u].todo[0].lock;
        var v :| Holds(s.tasks, v, l');
        SharerIsWaiting(s, v);
        assert Rank(l) < Rank(l');
        assert Ready(s.tasks, v);
      }
    }
  }

  lemma NoKeysNoMap(m: map<Lock, bool>)
    ensures m.Keys == {} ==> m == map[]
  {
  }

  /** A sharer with locks is unfinished, and takes next only a lock above all
      it has. */
  lemma SharerIsWaiting(s: State, t: nat)
    requires Invariant(s) && Unowned(s.tasks)
    requires t in s.tasks && s.tasks[t].Inside? && (s.tasks[t].held != map[] || |s.tasks[t].todo| > 0)
    ensures Unfinished(s.tasks, t) && Holds(s.tasks, t, Segments)
    ensures s.tasks[t].todo[0].Take? ==>
              forall h :: Holds(s.tasks, t, h) ==> Rank(h) < Rank(s.tasks[t].todo[0].lock)
  {
    var task := s.tasks[t];
    assert Disciplined(task);
    NoKeysNoMap(task.held);
    assert Segments in task.held.Keys ==> Holds(s.tasks, t, Segments);
    assert !HoldsExclusively(s.tasks, t, Segments);
  }

  /** The owner of the segment list is alone with the locks inside. */
  lemma OwnerIsReady(s: State, t: nat)
    requires Invariant(s) && HoldsExclusively(s.tasks, t, Segments)
    ensures Ready(s.tasks, t)
  {
    var task := s.tasks[t];
    assert Disciplined(task);
    assert Segments in task.held.Keys;
    forall u, l | u != t
      ensures !Holds(s.tasks, u, l)
    {
      if Holds(s.tasks, u, l) {
        assert Disciplined(s.tasks[u]);
        assert l in s.tasks[u].held.Keys;
        assert Holds(s.tasks, u, Segments);
      }
    }
  }

  /** No deadlock: whichever tasks there are and however far they got, while one is
      unfinished some task's next step takes no lock or a lock that nobody
      holds, although an append takes the index's lock before the map's and a
      fetch the other way round. */
  lemma NeverStuck(states: seq<State>, events: seq<Event>, i: nat, t: nat)
    requires Run(states, events) && i < |states| && Unfinished(states[i].tasks, t)
    ensures exists u :: Ready(states[i].tasks, u)
  {
    var s := states[i];
    InvariantHolds(states, events, i);
    if !Unowned(s.tasks) {
      var owner :| HoldsExclusively(s.tasks, owner, Segments);
      OwnerIsReady(s, owner);
    } else if u :| Unfinished(s.tasks, u) && s.tasks[u].Inside? {
      SharersDoNotCircle(s, u);
    } else {
      forall u
        ensures !Holds(s.tasks, u, Segments)
      {
        if Holds(s.tasks, u, Segments) {
          assert Disciplined(s.tasks[u]) && Segments in s.tasks[u].held.Keys;
          assert Unfinished(s.tasks, u);
        }
      }
      assert Ready(s.tasks, t);
    }
  }

  /** Whoever shares the segment list sees whole appends only: every segment's
      file, next offset, size and map agree, and together they hold exactly
      the records of the appends that have ended. */
  lemma ReadersSeeWholeAppends(states: seq<State>, events: seq<Event>, i: nat, t: nat)
    requires Run(states, events) && i < |states|
    requires Holds(states[i].tasks, t, Segments) && !states[i].tasks[t].kind.Append?
    ensures AllSettled(states[i].data) && Contents(states[i].data) == states[i].committed
  {
    var s := states[i];
    InvariantHolds(states, events, i);
    assert Disciplined(s.tasks[t]);
    assert Unowned(s.tasks);
  }

  /** And nothing changes under its eyes for as long as it is inside. */
  lemma {:induction false} NothingChangesUnderReaders(states: seq<State>, events: seq<Event>, i: nat, j: nat, t: nat)
    requires Run(states, events) && i <= j < |states|
    requires forall k :: i <= k <= j ==> Holds(states[k].tasks, t, Segments) && !states[k].tasks[t].kind.Append?
    ensures states[j].data == states[i].data && states[j].committed == states[i].committed
    decreases j
  {
    if i < j {
      NothingChangesUnderReaders(states, events, i, j - 1, t);
      var s, e, s' := states[j - 1], events[j - 1], states[j];
      assert Step(s, e, s');
      InvariantHolds(states, events, j - 1);
      assert Holds(s.tasks, t, Segments) && Disciplined(s.tasks[t]);
      if e.Next? {
        StaysDisciplined(s.tasks[e.task]);
        assert Holds(s.tasks, e.task, Segments);
        assert s.tasks[e.task].kind.Append? ==> HoldsExclusively(s.tasks, e.task, Segments);
      }
    }
  }

  // ------------------------------------------------ without the outer lock

  /** t can make its next step; here no outer lock comes before it. */
  ghost predicate CanMove(tasks: Tasks, t: nat) {
    && t in tasks && tasks[t].Inside? && |tasks[t].todo| > 0
    && (tasks[t].todo[0].Take? ==> Compatible(tasks, t, tasks[t].todo[0].lock, tasks[t].todo[0].exclusive))
  }

  /** The tasks take their steps in this order. */
  ghost predicate Reaches(tasks: Tasks, schedule: seq<nat>, tasks': Tasks)
    decreases |schedule|
  {
    if |schedule| == 0 then tasks' == tasks
    else CanMove(tasks, schedule[0])
         && Reaches(tasks[schedule[0] := After(tasks[schedule[0]])], schedule[1..], tasks')
  }

  /** An append and a fetch at the start of their work inside one segment. */
  function Meeting(i: nat, batch: seq<Rec>, indexed: seq<bool>): Tasks
    requires |indexed| == |batch|
  {
    map[0 := Inside(Append(batch), AppendTo(i, batch, indexed), map[]),
        1 := Inside(Fetch, ReadBatch(i, false), map[])]
  }

  lemma {:induction false} ReachesConcat(a: Tasks, p: seq<nat>, b: Tasks, q: seq<nat>, c: Tasks)
    requires Reaches(a, p, b) && Reaches(b, q, c)
    ensures Reaches(a, p + q, c)
    decreases |p|
  {
    if |p| == 0 {
      assert p + q == q;
    } else {
      assert (p + q)[1..] == p[1..] + q;
      ReachesConcat(a[p[0] := After(a[p[0]])], p[1..], b, q, c);
    }
  }

  /** The locks held after some operations. */
  function HeldAfter(held: map<Lock, bool>, ops: seq<Op>): map<Lock, bool>
    decreases |ops|
  {
    if |ops| == 0 then held else HeldAfter(HeldNext(held, ops[0]), ops[1..])
  }

  lemma {:induction false} HeldConcat(held: map<Lock, bool>, a: seq<Op>, b: seq<Op>)
    ensures HeldAfter(held, a + b) == HeldAfter(HeldAfter(held, a), b)
    decreases |a|
  {
    if |a| == 0 {
      assert a + b == b;
    } else {
      assert (a + b)[1..] == a[1..] + b;
      HeldConcat(HeldNext(held, a[0]), a[1..], b);
    }
  }

  lemma {:induction false} RecordsAreNoLockOps(i: nat, batch: seq<Rec>, indexed: seq<bool>)
    requires |indexed| == |batch|
    ensures forall op :: op in StoreRecords(i, batch, indexed) ==> !op.Take? && !op.Give?
    decreases |indexed|
  {
    if |indexed| > 0 {
      RecordsAreNoLockOps(i, batch[1..], indexed[1..]);
    }
  }

  lemma {:induction false} HeldStays(held: map<Lock, bool>, ops: seq<Op>)
    requires forall op :: op in ops ==> !op.Take? && !op.Give?
    ensures HeldAfter(held, ops) == held
    decreases |ops|
  {
    if |ops| > 0 {
      assert ops[0] in ops;
      HeldStays(held, ops[1..]);
    }
  }

  lemma {:induction false} HeldThree(held: map<Lock, bool>, a: Op, b: Op, c: Op)
    ensures HeldAfter(held, [a, b, c]) == HeldNext(HeldNext(HeldNext(held, a), b), c)
  {
    assert [a, b, c][1..] == [b, c] && [b, c][1..] == [c] && [c][1..] == [];
    var two := HeldNext(HeldNext(held, a), b);
    assert HeldAfter(HeldNext(held, a), [b, c]) == HeldAfter(two, [c]);
    assert HeldAfter(two, [c]) == HeldAfter(HeldNext(two, c), []) == HeldNext(two, c);
  }

  /** A task whose locks are wanted by nobody runs on. */
  lemma {:induction false} RunsThrough(tasks: Tasks, t: nat, ops: seq<Op>, rest: seq<Op>) returns (schedule: seq<nat>)
    requires t in tasks && tasks[t].Inside? && tasks[t].todo == ops + rest
    requires forall k, u :: 0 <= k < |ops| && ops[k].Take? && u != t ==> !Holds(tasks, u, ops[k].lock)
    ensures Reaches(tasks, schedule, tasks[t := tasks[t].(todo := rest, held := HeldAfter(tasks[t].held, ops))])
    decreases |ops|
  {
    if |ops| == 0 {
      schedule := [];
      assert ops + rest == rest;
      assert tasks[t := tasks[t]] == tasks;
    } else {
      var next := tasks[t := After(tasks[t])];
      assert (ops + rest)[1..] == ops[1..] + rest && (ops + rest)[0] == ops[0];
      assert forall u, l :: u != t ==> Holds(next, u, l) == Holds(tasks, u, l);
      assert CanMove(tasks, t);
      var more := RunsThrough(next, t, ops[1..], rest);
      schedule := [t] + more;
      assert schedule[1..] == more;
      var last := tasks[t].(todo := rest, held := HeldAfter(tasks[t].held, ops));
      assert next[t := last] == tasks[t := last];
    }
  }

  function AppendWaiting(i: nat): seq<Op> {
    [Take(Inner(i, Mapping), true), Remap(i)] + Gives(EndLocks(i))
  }

  function FetchWaiting(i: nat): seq<Op> {
    [Take(Inner(i, Index), false), Give(Inner(i, Index)), Give(Inner(i, Mapping))]
  }

  /** The two tasks in each other's way. */
  function Met(i: nat, batch: seq<Rec>): Tasks {
    map[0 := Inside(Append(batch), AppendWaiting(i),
                    map[Inner(i, LogFile) := false, Inner(i, Index) := true, Inner(i, Size) := true,
                        Inner(i, NextOffset) := true, Inner(i, SinceIndex) := true]),
        1 := Inside(Fetch, FetchWaiting(i), map[Inner(i, Mapping) := false])]
  }

  lemma FetchComesFirst(i: nat, batch: seq<Rec>, indexed: seq<bool>) returns (schedule: seq<nat>)
    requires |indexed| == |batch|
    ensures Reaches(Meeting(i, batch, indexed), schedule, Meeting(i, batch, indexed)[1 := Met(i, batch)[1]])
  {
    var ops := [Take(Inner(i, NextOffset), false), Give(Inner(i, NextOffset)), Take(Inner(i, Mapping), false)];
    assert ReadBatch(i, false) == ops + FetchWaiting(i);
    schedule := RunsThrough(Meeting(i, batch, indexed), 1, ops, FetchWaiting(i));
    HeldThree(map[], ops[0], ops[1], ops[2]);
    assert map[Inner(i, NextOffset) := false] - {Inner(i, NextOffset)} == map[];
    assert Meeting(i, batch, indexed)[1].(todo := FetchWaiting(i), held := HeldAfter(map[], ops)) == Met(i, batch)[1];
  }

  lemma LocksHeld(i: nat)
    ensures HeldAfter(map[], AppendLocks(i))
            == map[Inner(i, LogFile) := true, Inner(i, Index) := true, Inner(i, Size) := true,
                   Inner(i, NextOffset) := true, Inner(i, SinceIndex) := true]
  {
    var ops := AppendLocks(i);
    assert ops[1..][1..][1..][1..] == [Take(Inner(i, SinceIndex), true)];
    assert ops[1..][1..][1..][1..][1..] == [];
    var h1 := map[Inner(i, LogFile) := true];
    var h2 := h1[Inner(i, Index) := true];
    var h3 := h2[Inner(i, Size) := true];
    var h4 := h3[Inner(i, NextOffset) := true];
    assert HeldAfter(h4, ops[1..][1..][1..][1..]) == h4[Inner(i, SinceIndex) := true];
    assert HeldAfter(h2, ops[1..][1..]) == HeldAfter(h3, ops[1..][1..][1..]) == HeldAfter(h4, ops[1..][1..][1..][1..]);
  }

  lemma RemapHeld(held: map<Lock, bool>, i: nat)
    ensures HeldAfter(held, [Resize(i), Give(Inner(i, LogFile)), Take(Inner(i, LogFile), false)])
            == (held - {Inner(i, LogFile)})[Inner(i, LogFile) := false]
  {
    HeldThree(held, Resize(i), Give(Inner(i, LogFile)), Take(Inner(i, LogFile), false));
  }

  /** What an append does up to the point where it needs the map. */
  function UpToRemap(i: nat, batch: seq<Rec>, indexed: seq<bool>): seq<Op>
    requires |indexed| == |batch|
  {
    AppendLocks(i) + StoreRecords(i, batch, indexed) + [Resize(i), Give(Inner(i, LogFile)), Take(Inner(i, LogFile), false)]
  }

  lemma HeldUpToRemap(i: nat, batch: seq<Rec>, indexed: seq<bool>)
    requires |indexed| == |batch|
    ensures AppendTo(i, batch, indexed) == UpToRemap(i, batch, indexed) + AppendWaiting(i)
    ensures HeldAfter(map[], UpToRemap(i, batch, indexed)) == Met(i, batch)[0].held
  {
    var remap := [Resize(i), Give(Inner(i, LogFile)), Take(Inner(i, LogFile), false)];
    assert AppendEnd(i) == remap + AppendWaiting(i);
    LocksHeld(i);
    var held := HeldAfter(map[], AppendLocks(i));
    RecordsAreNoLockOps(i, batch, indexed);
    HeldStays(held, StoreRecords(i, batch, indexed));
    RemapHeld(held, i);
    HeldConcat(map[], AppendLocks(i), StoreRecords(i, batch, indexed));
    HeldConcat(map[], AppendLocks(i) + StoreRecords(i, batch, indexed), remap);
  }

  lemma TakesNoMapping(i: nat, batch: seq<Rec>, indexed: seq<bool>)
    requires |indexed| == |batch|
    ensures forall k :: 0 <= k < |UpToRemap(i, batch, indexed)| && UpToRemap(i, batch, indexed)[k].Take? ==>
              UpToRemap(i, batch, indexed)[k].lock != Inner(i, Mapping)
  {
    RecordsAreNoLockOps(i, batch, indexed);
    var ops, locks, records := UpToRemap(i, batch, indexed), AppendLocks(i), StoreRecords(i, batch, indexed);
    forall k | |locks| <= k < |locks| + |records|
      ensures !ops[k].Take?
    {
      assert ops[k] == records[k - |locks|] && ops[k] in records;
    }
  }

  lemma AppendFollows(i: nat, batch: seq<Rec>, indexed: seq<bool>) returns (schedule: seq<nat>)
    requires |indexed| == |batch|
    ensures Reaches(Meeting(i, batch, indexed)[1 := Met(i, batch)[1]], schedule, Met(i, batch))
  {
    var start := Meeting(i, batch, indexed)[1 := Met(i, batch)[1]];
    HeldUpToRemap(i, batch, indexed);
    TakesNoMapping(i, batch, indexed);
    forall u, l | u != 0 && l != Inner(i, Mapping)
      ensures !Holds(start, u, l)
    {
    }
    schedule := RunsThrough(start, 0, UpToRemap(i, batch, indexed), AppendWaiting(i));
    assert start[0].(todo := AppendWaiting(i), held := HeldAfter(map[], UpToRemap(i, batch, indexed))) == Met(i, batch)[0];
    assert start[0 := Met(i, batch)[0]] == Met(i, batch);
  }

  /** It is the outer lock that saves the opposite orders: without it an append
      and a fetch can reach a point inside one segment, the one about to remap
      and the other about to look into the index, where they wait for each
      other. */
  lemma OuterLockMatters(i: nat, batch: seq<Rec>, indexed: seq<bool>) returns (schedule: seq<nat>)
    requires |indexed| == |batch|
    ensures Reaches(Meeting(i, batch, indexed), schedule, Met(i, batch))
    ensures forall t :: Unfinished(Met(i, batch), t) ==> !CanMove(Met(i, batch), t)
    ensures Unfinished(Met(i, batch), 0) && Unfinished(Met(i, batch), 1)
  {
    var p := FetchComesFirst(i, batch, indexed);
    var q := AppendFollows(i, batch, indexed);
    schedule := p + q;
    ReachesConcat(Meeting(i, batch, indexed), p, Meeting(i, batch, indexed)[1 := Met(i, batch)[1]], q, Met(i, batch));
    assert HoldsExclusively(Met(i, batch), 0, Inner(i, Index)) && Holds(Met(i, batch), 1, Inner(i, Mapping));
  }
}
