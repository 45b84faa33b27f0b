/** Overlapping offset commits: broker/src/offset_manager.rs, commit_offset and
    persist_group, one lock operation or file operation at a time. */
module OffsetCommits {
  import opened Bytes
  import opened OffsetText

  /** Where a commit is. The insertion under the write lock has no step of
      another task inside it; the read lock is held from Locked until the
      release, and `pos` is the commit's own position in the file. */
  datatype Phase = Start(place: Place, offset: u64) | Inserted | Locked | Writing(pos: nat) | Done

  datatype Task = Task(group: string, phase: Phase)
  {
    predicate HoldsRead() {
      phase.Locked? || phase.Writing?
    }

    predicate InFlight() {
      phase.Inserted? || HoldsRead()
    }
  }

  /** `order` is the order in which the hash map lists each group's offsets at
      the moment; any insertion may change it for every group. */
  datatype State = State(
    memory: map<string, Offsets>,
    order: map<string, seq<Entry>>,
    files: map<string, string>,
    tasks: Tasks)
  {
    function Memory(g: string): Offsets {
      if g in memory then memory[g] else map[]
    }

    function Order(g: string): seq<Entry> {
      if g in order then order[g] else []
    }

    function File(g: string): string {
      if g in files then files[g] else ""
    }

    /** What any persister of the group is writing. */
    function Text(g: string): string {
      TextOf(Order(g))
    }

    function To(t: nat, phase: Phase): Tasks
      requires t in tasks
    {
      tasks[t := Task(tasks[t].group, phase)]
    }
  }

  /** Writing past the end of a file leaves a hole of zero bytes. */
  function Overwrite(file: string, pos: nat, data: string): (f: string)
    ensures |f| == if pos + |data| > |file| then pos + |data| else |file|
    ensures forall i :: 0 <= i < |f| ==>
              f[i] == if pos <= i < pos + |data| then data[i - pos] else if i < |file| then file[i] else '\0'
  {
    var padded := if |file| < pos then file + seq(pos - |file|, _ => '\0') else file;
    padded[..pos] + data + if pos + |data| < |padded| then padded[pos + |data|..] else ""
  }

  // ---------------------------------------------------------------- the steps

  datatype Event =
    | Begin(task: nat, group: string, place: Place, offset: u64)
    | Insertion(task: nat)
    | Acquire(task: nat)
    | Create(task: nat)
    | Write(task: nat, count: nat)
    | Release(task: nat)

  ghost predicate Step(s: State, e: Event, s': State) {
    match e
    case Begin(t, g, place, offset) =>
      t !in s.tasks && s' == s.(tasks := s.tasks[t := Task(g, Start(place, offset))])
    case Insertion(t) =>
      // the write lock: nobody holds the read lock
      && t in s.tasks && s.tasks[t].phase.Start?
      && (forall u :: u in s.tasks ==> !s.tasks[u].HoldsRead())
      && var g, start := s.tasks[t].group, s.tasks[t].phase;
      && s' == s.(memory := s.memory[g := s.Memory(g)[start.place := start.offset]],
                  order := s'.order, tasks := s.To(t, Inserted))
      && forall h :: Lists(s'.Order(h), s'.Memory(h))
    case Acquire(t) =>
      t in s.tasks && s.tasks[t].phase.Inserted? && s' == s.(tasks := s.To(t, Locked))
    case Create(t) =>
      // truncates the file
      && t in s.tasks && s.tasks[t].phase.Locked?
      && s' == s.(files := s.files[s.tasks[t].group := ""], tasks := s.To(t, Writing(0)))
    case Write(t, n) =>
      // part of a line, a line, or several
      && t in s.tasks && s.tasks[t].phase.Writing?
      && var g, pos := s.tasks[t].group, s.tasks[t].phase.pos;
      && pos + n <= |s.Text(g)|
      && s' == s.(files := s.files[g := Overwrite(s.File(g), pos, s.Text(g)[pos..pos + n])],
                  tasks := s.To(t, Writing(pos + n)))
    case Release(t) =>
      && t in s.tasks && s.tasks[t].phase == Writing(|s.Text(s.tasks[t].group)|)
      && s' == s.(tasks := s.To(t, Done))
  }

  /** The group's file is the text of its offsets in memory, in some order. */
  ghost predicate Synced(s: State, g: string) {
    exists entries :: Lists(entries, s.Memory(g)) && s.File(g) == TextOf(entries)
  }

  ghost predicate Initial(s: State) {
    s.tasks == map[] && forall g :: Lists(s.Order(g), s.Memory(g)) && Synced(s, g)
  }

  ghost predicate Run(states: seq<State>, events: seq<Event>) {
    && |states| == |events| + 1 && Initial(states[0])
    && forall i :: 0 <= i < |events| ==> Step(states[i], events[i], states[i + 1])
  }

  // ------------------------------------------------------------- the invariant

  type Tasks = map<nat, Task>

  predicate IsOf(tasks: Tasks, t: nat, g: string) {
    t in tasks && tasks[t].group == g
  }

  /** t has yet to truncate the file. */
  predicate Awaits(tasks: Tasks, t: nat, g: string) {
    IsOf(tasks, t, g) && (tasks[t].phase.Inserted? || tasks[t].phase.Locked?)
  }

  predicate Writes(tasks: Tasks, t: nat, g: string) {
    IsOf(tasks, t, g) && tasks[t].phase.Writing?
  }

  /** t was the last to truncate: up to its position the file is right, and
      beyond it there is nothing the text does not have room for. */
  predicate Leads(tasks: Tasks, t: nat, g: string, file: string, text: string) {
    && Writes(tasks, t, g)
    && var pos := tasks[t].phase.pos;
       pos <= |file| <= |text| && file[..pos] == text[..pos]
  }

  /** While commits of a group write, the last to truncate leads, or the file
      is right already. */
  ghost predicate Progress(tasks: Tasks, g: string, file: string, text: string) {
    && (forall t :: Writes(tasks, t, g) ==> tasks[t].phase.pos <= |text|)
    && ((exists t :: Writes(tasks, t, g)) ==> file == text || exists t :: Leads(tasks, t, g, file, text))
  }

  /** The insertion of t is behind it. */
  predicate Entered(tasks: Tasks, t: nat, g: string) {
    IsOf(tasks, t, g) && !tasks[t].phase.Start?
  }

  ghost predicate NoneWrites(tasks: Tasks, g: string) {
    forall t :: !Writes(tasks, t, g)
  }

  ghost predicate NoneAwaits(tasks: Tasks, g: string) {
    forall t :: !Awaits(tasks, t, g)
  }

  ghost predicate NoneEntered(tasks: Tasks, g: string) {
    forall t :: !Entered(tasks, t, g)
  }

  ghost predicate GroupInvariant(s: State, g: string) {
    && Lists(s.Order(g), s.Memory(g))
    && Progress(s.tasks, g, s.File(g), s.Text(g))
    && (NoneWrites(s.tasks, g) && NoneAwaits(s.tasks, g) ==> Synced(s, g))
    && (NoneEntered(s.tasks, g) || s.Memory(g) != map[])
  }

  /** The group's commits are where they were. */
  ghost predicate SameCommits(tasks: Tasks, tasks': Tasks, g: string) {
    && (forall t :: Writes(tasks', t, g) <==> Writes(tasks, t, g))
    && (forall t :: Writes(tasks, t, g) ==> t in tasks' && tasks'[t] == tasks[t])
    && (forall t :: Awaits(tasks', t, g) <==> Awaits(tasks, t, g))
    && (forall t :: Entered(tasks', t, g) <==> Entered(tasks, t, g))
  }

  /** So they are after a step of another group, or the start of a commit. */
  lemma OthersMove(tasks: Tasks, t: nat, task: Task, g: string)
    requires if t in tasks then tasks[t].group == task.group != g else task.group != g || task.phase.Start?
    ensures SameCommits(tasks, tasks[t := task], g)
  {
  }

  /** What does not touch the group's writers or its file keeps its progress. */
  lemma ElsewhereKeeps(tasks: Tasks, tasks': Tasks, g: string, file: string, text: string)
    requires Progress(tasks, g, file, text)
    requires forall u :: Writes(tasks', u, g) <==> Writes(tasks, u, g)
    requires forall u :: Writes(tasks, u, g) ==> u in tasks' && tasks'[u] == tasks[u]
    ensures Progress(tasks', g, file, text)
  {
    if u :| Leads(tasks, u, g, file, text) {
      assert Leads(tasks', u, g, file, text);
    }
  }

  lemma CreateKeeps(tasks: Tasks, t: nat, g: string, file: string, text: string)
    requires Progress(tasks, g, file, text) && IsOf(tasks, t, g)
    ensures Progress(tasks[t := Task(g, Writing(0))], g, "", text)
  {
    var tasks' := tasks[t := Task(g, Writing(0))];
    assert Leads(tasks', t, g, "", text);
    assert forall u :: Writes(tasks', u, g) && u != t ==> Writes(tasks, u, g);
  }

  lemma OverwriteKeepsPrefix(file: string, text: string, pos: nat, n: nat, upTo: nat)
    requires pos + n <= |text| && upTo <= |file| <= |text| && file[..upTo] == text[..upTo]
    ensures var file' := Overwrite(file, pos, text[pos..pos + n]);
            && |file| <= |file'| <= |text| && file'[..upTo] == text[..upTo]
            && (pos == upTo ==> pos + n <= |file'| && file'[..pos + n] == text[..pos + n])
  {
    forall i | 0 <= i < upTo
      ensures file[i] == text[i]
    {
      assert file[..upTo][i] == text[..upTo][i];
    }
  }

  /** Every writer of a group writes the same text, so whoever writes, what is
      right stays right. */
  lemma WriteKeeps(tasks: Tasks, t: nat, n: nat, g: string, file: string, text: string)
    requires Progress(tasks, g, file, text) && Writes(tasks, t, g)
    requires tasks[t].phase.pos + n <= |text|
    ensures var pos := tasks[t].phase.pos;
            Progress(tasks[t := Task(g, Writing(pos + n))], g, Overwrite(file, pos, text[pos..pos + n]), text)
  {
    var pos := tasks[t].phase.pos;
    var tasks', file' := tasks[t := Task(g, Writing(pos + n))], Overwrite(file, pos, text[pos..pos + n]);
    assert forall u :: Writes(tasks', u, g) && u != t ==> Writes(tasks, u, g);
    if u :| Leads(tasks, u, g, file, text) {
      OverwriteKeepsPrefix(file, text, pos, n, tasks[u].phase.pos);
      assert Leads(tasks', u, g, file', text);
    } else {
      OverwriteKeepsPrefix(file, text, pos, n, |text|);
      assert file' == file'[..|text|] && text == text[..|text|];
    }
  }

  /** The last writer to go leaves the whole text. */
  lemma ReleaseKeeps(tasks: Tasks, t: nat, g: string, file: string, text: string)
    requires Progress(tasks, g, file, text) && IsOf(tasks, t, g) && tasks[t].phase == Writing(|text|)
    ensures Progress(tasks[t := Task(g, Done)], g, file, text)
    ensures NoneWrites(tasks[t := Task(g, Done)], g) ==> file == text
  {
    var tasks' := tasks[t := Task(g, Done)];
    assert Writes(tasks, t, g);
    assert forall u :: Writes(tasks', u, g) ==> Writes(tasks, u, g);
    if Leads(tasks, t, g, file, text) {
      assert file == file[..|text|] && text == text[..|text|];
    } else if u :| Leads(tasks, u, g, file, text) {
      assert Leads(tasks', u, g, file, text) && Writes(tasks', u, g);
    }
  }

  lemma OrderSyncs(s: State, g: string)
    requires Lists(s.Order(g), s.Memory(g)) && s.File(g) == s.Text(g)
    ensures Synced(s, g)
  {
  }

  lemma SyncedElsewhere(s: State, s': State, g: string)
    requires Synced(s, g) && s'.Memory(g) == s.Memory(g) && s'.File(g) == s.File(g)
    ensures Synced(s', g)
  {
    var entries :| Lists(entries, s.Memory(g)) && s.File(g) == TextOf(entries);
    assert Lists(entries, s'.Memory(g)) && s'.File(g) == TextOf(entries);
  }

  /** An insertion shuts out every persister, so a file that waits for nobody
      is in step with memory at that moment. */
  lemma InsertionKeeps(s: State, t: nat, s': State, g: string)
    requires Step(s, Insertion(t), s') && GroupInvariant(s, g)
    ensures GroupInvariant(s', g)
  {
    assert NoneWrites(s.tasks, g) && NoneWrites(s'.tasks, g);
    if s.tasks[t].group == g {
      assert Awaits(s'.tasks, t, g);
      assert s.tasks[t].phase.place in s'.Memory(g);
    } else {
      OthersMove(s.tasks, t, s'.tasks[t], g);
      if NoneAwaits(s.tasks, g) {
        SyncedElsewhere(s, s', g);
      }
    }
  }

  /** Another group's step, or the start of a commit. */
  lemma OtherStepKeeps(s: State, e: Event, s': State, g: string)
    requires Step(s, e, s') && !e.Insertion? && GroupInvariant(s, g)
    requires e.Begin? || s.tasks[e.task].group != g
    ensures GroupInvariant(s', g)
  {
    OtherStepLeaves(s, e, s', g);
    UnmovedKeeps(s, s', g);
  }

  lemma OtherStepLeaves(s: State, e: Event, s': State, g: string)
    requires Step(s, e, s') && !e.Insertion? && (e.Begin? || s.tasks[e.task].group != g)
    ensures SameCommits(s.tasks, s'.tasks, g)
    ensures s'.Order(g) == s.Order(g) && s'.Memory(g) == s.Memory(g) && s'.File(g) == s.File(g)
  {
    OthersMove(s.tasks, e.task, s'.tasks[e.task], g);
  }

  lemma UnmovedKeeps(s: State, s': State, g: string)
    requires GroupInvariant(s, g) && SameCommits(s.tasks, s'.tasks, g)
    requires s'.Order(g) == s.Order(g) && s'.Memory(g) == s.Memory(g) && s'.File(g) == s.File(g)
    ensures GroupInvariant(s', g)
  {
    ElsewhereKeeps(s.tasks, s'.tasks, g, s.File(g), s.Text(g));
    if NoneWrites(s.tasks, g) && NoneAwaits(s.tasks, g) {
      SyncedElsewhere(s, s', g);
    }
  }

  lemma AcquireStepKeeps(s: State, t: nat, s': State)
    requires Step(s, Acquire(t), s') && GroupInvariant(s, s.tasks[t].group)
    ensures GroupInvariant(s', s.tasks[t].group)
  {
    var g := s.tasks[t].group;
    assert Awaits(s'.tasks, t, g) && Entered(s.tasks, t, g);
    assert forall u :: Writes(s'.tasks, u, g) <==> Writes(s.tasks, u, g);
    ElsewhereKeeps(s.tasks, s'.tasks, g, s.File(g), s.Text(g));
  }

  lemma CreateStepKeeps(s: State, t: nat, s': State)
    requires Step(s, Create(t), s') && GroupInvariant(s, s.tasks[t].group)
    ensures GroupInvariant(s', s.tasks[t].group)
  {
    var g := s.tasks[t].group;
    assert Writes(s'.tasks, t, g) && Entered(s.tasks, t, g);
    CreateKeeps(s.tasks, t, g, s.File(g), s.Text(g));
  }

  lemma WriteStepKeeps(s: State, t: nat, n: nat, s': State)
    requires Step(s, Write(t, n), s') && GroupInvariant(s, s.tasks[t].group)
    ensures GroupInvariant(s', s.tasks[t].group)
  {
    var g := s.tasks[t].group;
    assert Writes(s'.tasks, t, g) && Entered(s.tasks, t, g);
    WriteKeeps(s.tasks, t, n, g, s.File(g), s.Text(g));
  }

  lemma ReleaseStepKeeps(s: State, t: nat, s': State)
    requires Step(s, Release(t), s') && GroupInvariant(s, s.tasks[t].group)
    ensures GroupInvariant(s', s.tasks[t].group)
  {
    var g := s.tasks[t].group;
    assert Entered(s.tasks, t, g);
    ReleaseKeeps(s.tasks, t, g, s.File(g), s.Text(g));
    if NoneWrites(s'.tasks, g) {
      OrderSyncs(s', g);
    }
  }

  lemma StepKeepsInvariant(s: State, e: Event, s': State, g: string)
    requires Step(s, e, s') && GroupInvariant(s, g)
    ensures GroupInvariant(s', g)
  {
    if e.Insertion? {
      InsertionKeeps(s, e.task, s', g);
    } else if e.Begin? || s.tasks[e.task].group != g {
      OtherStepKeeps(s, e, s', g);
    } else {
      match e
      case Acquire(t) => AcquireStepKeeps(s, t, s');
      case Create(t) => CreateStepKeeps(s, t, s');
      case Write(t, n) => WriteStepKeeps(s, t, n, s');
      case Release(t) => ReleaseStepKeeps(s, t, s');
    }
  }

  lemma {:induction false} InvariantHolds(states: seq<State>, events: seq<Event>, i: nat, g: string)
    requires Run(states, events) && i < |states|
    ensures GroupInvariant(states[i], g)
  {
    if i > 0 {
      InvariantHolds(states, events, i - 1, g);
      assert Step(states[i - 1], events[i - 1], states[i]);
      StepKeepsInvariant(states[i - 1], events[i - 1], states[i], g);
    }
  }

  // ------------------------------------------------------------------- results

  ghost predicate Quiet(s: State, g: string) {
    forall t :: IsOf(s.tasks, t, g) ==> !s.tasks[t].InFlight()
  }

  /** Whenever no commit of a group is in flight, however its commits and those
      of other groups overlapped before, its file is the text of its offsets
      in memory. */
  lemma QuietGroupIsSynced(states: seq<State>, events: seq<Event>, i: nat, g: string)
    requires Run(states, events) && i < |states| && Quiet(states[i], g)
    ensures Synced(states[i], g)
  {
    InvariantHolds(states, events, i, g);
    assert forall t :: !Writes(states[i].tasks, t, g) && !Awaits(states[i].tasks, t, g);
  }

  /** So a restart at such a moment restores every committed offset exactly,
      if and only if the group's topics are clean. */
  lemma QuietRestartRestores(states: seq<State>, events: seq<Event>, i: nat, g: string)
    requires Run(states, events) && i < |states| && Quiet(states[i], g)
    ensures Absorb(map[], states[i].File(g)) == states[i].Memory(g) <==> Clean(states[i].Memory(g))
  {
    QuietGroupIsSynced(states, events, i, g);
    SyncedRestores(states[i], g, states[i].Memory(g));
  }

  lemma SyncedRestores(s: State, g: string, memory: Offsets)
    requires exists entries :: Lists(entries, memory) && s.File(g) == TextOf(entries)
    ensures Absorb(map[], s.File(g)) == memory <==> Clean(memory)
  {
    var entries :| Lists(entries, memory) && s.File(g) == TextOf(entries);
    RoundTrip(entries, memory);
  }

  // ------------------------------------------------------ which offset it is

  /** Event k inserts this offset: it is the insertion of a commit that began
      with it. */
  ghost predicate Inserts(events: seq<Event>, k: nat, g: string, place: Place, offset: u64) {
    && k < |events| && events[k].Insertion?
    && exists b :: 0 <= b < k && events[b] == Begin(events[k].task, g, place, offset)
  }

  /** No event from lo up to hi inserts an offset for the place. */
  ghost predicate NoInsertion(events: seq<Event>, lo: nat, hi: nat, g: string, place: Place) {
    forall k, offset :: lo <= k < hi ==> !Inserts(events, k, g, place, offset)
  }

  /** Commits are not forgotten, and none goes back to its start. */
  lemma StepOfTask(s: State, e: Event, s': State, t: nat)
    requires Step(s, e, s')
    ensures t in s.tasks ==> t in s'.tasks && s'.tasks[t].group == s.tasks[t].group
    ensures t in s.tasks && s'.tasks[t].phase.Start? ==> s'.tasks[t] == s.tasks[t]
    ensures t in s'.tasks && t !in s.tasks ==>
              e.Begin? && e.task == t && s'.tasks[t] == Task(e.group, Start(e.place, e.offset))
  {
  }

  /** A commit carries what it began with until its insertion. */
  lemma {:induction false} StaysAsBegun(states: seq<State>, events: seq<Event>, b: nat, i: nat,
                                        t: nat, g: string, place: Place, offset: u64)
    requires Run(states, events) && b < i < |states| && events[b] == Begin(t, g, place, offset)
    ensures IsOf(states[i].tasks, t, g)
    ensures states[i].tasks[t].phase.Start? ==> states[i].tasks[t].phase == Start(place, offset)
  {
    assert Step(states[i - 1], events[i - 1], states[i]);
    if b < i - 1 {
      StaysAsBegun(states, events, b, i - 1, t, g, place, offset);
      StepOfTask(states[i - 1], events[i - 1], states[i], t);
    }
  }

  /** And every commit did begin. */
  lemma {:induction false} HasBegun(states: seq<State>, events: seq<Event>, i: nat, t: nat) returns (b: nat)
    requires Run(states, events) && i < |states| && t in states[i].tasks
    ensures b < i && events[b].Begin? && events[b].task == t && events[b].group == states[i].tasks[t].group
  {
    assert i > 0;
    assert Step(states[i - 1], events[i - 1], states[i]);
    StepOfTask(states[i - 1], events[i - 1], states[i], t);
    if t in states[i - 1].tasks {
      b := HasBegun(states, events, i - 1, t);
    } else {
      b := i - 1;
    }
  }

  /** An insertion writes what its commit began with. */
  lemma InsertionIs(states: seq<State>, events: seq<Event>, k: nat)
    requires Run(states, events) && k < |events| && events[k].Insertion?
    ensures var t, s := events[k].task, states[k];
            && t in s.tasks && s.tasks[t].phase.Start?
            && Inserts(events, k, s.tasks[t].group, s.tasks[t].phase.place, s.tasks[t].phase.offset)
  {
    assert Step(states[k], events[k], states[k + 1]);
    var t := events[k].task;
    var b := HasBegun(states, events, k, t);
    StaysAsBegun(states, events, b, k, t, events[b].group, events[b].place, events[b].offset);
  }

  /** Only the insertion of a commit for the place changes the place. */
  lemma StepAtPlace(s: State, e: Event, s': State, g: string, place: Place)
    requires Step(s, e, s')
    ensures e.Insertion? && s.tasks[e.task].group == g && s.tasks[e.task].phase.place == place ==>
              place in s'.Memory(g) && s'.Memory(g)[place] == s.tasks[e.task].phase.offset
    ensures !(e.Insertion? && s.tasks[e.task].group == g && s.tasks[e.task].phase.place == place) ==>
              && (place in s'.Memory(g) <==> place in s.Memory(g))
              && (place in s.Memory(g) ==> s'.Memory(g)[place] == s.Memory(g)[place])
  {
  }

  /** A place without an insertion keeps what it had. */
  lemma {:induction false} WithoutInsertion(states: seq<State>, events: seq<Event>, from: nat, i: nat, g: string, place: Place)
    requires Run(states, events) && from <= i < |states| && NoInsertion(events, from, i, g, place)
    ensures place in states[i].Memory(g) <==> place in states[from].Memory(g)
    ensures place in states[from].Memory(g) ==> states[i].Memory(g)[place] == states[from].Memory(g)[place]
    decreases i
  {
    if from < i {
      WithoutInsertion(states, events, from, i - 1, g, place);
      assert Step(states[i - 1], events[i - 1], states[i]);
      StepAtPlace(states[i - 1], events[i - 1], states[i], g, place);
      if events[i - 1].Insertion? {
        InsertionIs(states, events, i - 1);
      }
    }
  }

  /** In every run, memory holds for each place the offset of the commit whose
      insertion was the last for it; which is the one the commit began with. */
  lemma LastInsertionWins(states: seq<State>, events: seq<Event>, k: nat, i: nat, g: string, place: Place, offset: u64)
    requires Run(states, events) && k < i < |states|
    requires Inserts(events, k, g, place, offset) && NoInsertion(events, k + 1, i, g, place)
    ensures place in states[i].Memory(g) && states[i].Memory(g)[place] == offset
  {
    assert Step(states[k], events[k], states[k + 1]);
    var t := events[k].task;
    var b :| 0 <= b < k && events[b] == Begin(t, g, place, offset);
    StaysAsBegun(states, events, b, k, t, g, place, offset);
    StepAtPlace(states[k], events[k], states[k + 1], g, place);
    WithoutInsertion(states, events, k + 1, i, g, place);
  }

  /** So a restart while the group is quiet resumes at the last commit. */
  lemma QuietRestartResumes(states: seq<State>, events: seq<Event>, k: nat, i: nat, g: string, place: Place, offset: u64)
    requires Run(states, events) && k < i < |states| && Quiet(states[i], g) && Clean(states[i].Memory(g))
    requires Inserts(events, k, g, place, offset) && NoInsertion(events, k + 1, i, g, place)
    ensures var restored := Absorb(map[], states[i].File(g)); place in restored && restored[place] == offset
  {
    QuietRestartRestores(states, events, i, g);
    LastInsertionWins(states, events, k, i, g, place, offset);
  }

  // ------------------------------------------------------ the window of a crash

  /** The file at s is the text of the group's offsets as they were at past, by
      when every commit that is done at s had made its insertion. */
  ghost predicate HoldsAsOf(past: State, s: State, g: string) {
    && (exists entries :: Lists(entries, past.Memory(g)) && s.File(g) == TextOf(entries))
    && forall t :: IsOf(s.tasks, t, g) && s.tasks[t].phase.Done? ==> Entered(past.tasks, t, g)
  }

  lemma HoldsStill(past: State, s: State, e: Event, s': State, g: string)
    requires HoldsAsOf(past, s, g) && Step(s, e, s') && NoneWrites(s.tasks, g) && NoneWrites(s'.tasks, g)
    ensures HoldsAsOf(past, s', g)
  {
    FileUntouched(s, e, s', g);
    forall t | IsOf(s'.tasks, t, g) && s'.tasks[t].phase.Done?
      ensures Entered(past.tasks, t, g)
    {
      assert IsOf(s.tasks, t, g) && s.tasks[t].phase.Done?;
    }
  }

  lemma FileUntouched(s: State, e: Event, s': State, g: string)
    requires Step(s, e, s') && NoneWrites(s.tasks, g) && NoneWrites(s'.tasks, g)
    ensures s'.File(g) == s.File(g)
    ensures forall t :: IsOf(s'.tasks, t, g) && s'.tasks[t].phase.Done? ==> IsOf(s.tasks, t, g) && s.tasks[t].phase.Done?
  {
    if !e.Begin? && s.tasks[e.task].group == g {
      assert !Writes(s.tasks, e.task, g) && !Writes(s'.tasks, e.task, g);
    }
  }

  lemma LastWriterGoes(s: State, e: Event, s': State, g: string)
    requires GroupInvariant(s, g) && Step(s, e, s') && !NoneWrites(s.tasks, g) && NoneWrites(s'.tasks, g)
    ensures HoldsAsOf(s', s', g)
  {
    var u :| Writes(s.tasks, u, g);
    assert !Writes(s'.tasks, u, g);
    assert e == Release(u);
    ReleaseKeeps(s.tasks, u, g, s.File(g), s.Text(g));
    OrderSyncs(s', g);
  }

  /** In every run, whenever no commit of a group is between its truncation and
      its release, the file holds the group's offsets as of an earlier moment,
      with every commit that is done in it. */
  lemma {:induction false} FinishedCommitsAreOnDisk(states: seq<State>, events: seq<Event>, i: nat, g: string) returns (j: nat)
    requires Run(states, events) && i < |states| && NoneWrites(states[i].tasks, g)
    ensures j <= i && HoldsAsOf(states[j], states[i], g)
  {
    if i == 0 {
      j := 0;
      assert Synced(states[0], g);
    } else {
      var s, e, s' := states[i - 1], events[i - 1], states[i];
      assert Step(s, e, s');
      if NoneWrites(s.tasks, g) {
        j := FinishedCommitsAreOnDisk(states, events, i - 1, g);
        HoldsStill(states[j], s, e, s', g);
      } else {
        InvariantHolds(states, events, i - 1, g);
        LastWriterGoes(s, e, s', g);
        j := i;
      }
    }
  }

  /** So a crash loses no finished commit unless it falls between a truncation
      and the release that follows: outside that window a restart restores the
      offsets of such a moment, if and only if their topics are clean. */
  lemma CrashOutsideWindow(states: seq<State>, events: seq<Event>, i: nat, g: string) returns (j: nat)
    requires Run(states, events) && i < |states| && NoneWrites(states[i].tasks, g)
    ensures j <= i && HoldsAsOf(states[j], states[i], g)
    ensures Absorb(map[], states[i].File(g)) == states[j].Memory(g) <==> Clean(states[j].Memory(g))
  {
    j := FinishedCommitsAreOnDisk(states, events, i, g);
    SyncedRestores(states[i], g, states[j].Memory(g));
  }

  /** The last insertion for a place before hi, when event k is one. */
  lemma {:induction false} LatestInsertion(events: seq<Event>, k: nat, hi: nat, g: string, place: Place, offset: u64)
    returns (last: nat, lastOffset: u64)
    requires k < hi <= |events| && Inserts(events, k, g, place, offset)
    ensures k <= last < hi && Inserts(events, last, g, place, lastOffset) && NoInsertion(events, last + 1, hi, g, place)
    decreases hi
  {
    var at: nat := hi - 1;
    if o :| Inserts(events, at, g, place, o) {
      last, lastOffset := at, o;
    } else {
      last, lastOffset := LatestInsertion(events, k, hi - 1, g, place, offset);
    }
  }

  /** Before its insertion a commit has not entered. */
  lemma {:induction false} EntersByInsertion(states: seq<State>, events: seq<Event>, k: nat, j: nat, g: string)
    requires Run(states, events) && j <= k < |events| && events[k].Insertion?
    ensures !Entered(states[j].tasks, events[k].task, g)
    decreases k - j
  {
    assert Step(states[j], events[j], states[j + 1]);
    if j < k {
      EntersByInsertion(states, events, k, j + 1, g);
      StepOfTask(states[j], events[j], states[j + 1], events[k].task);
    }
  }

  /** Places are only added, so topics that are clean now were clean before. */
  lemma {:induction false} CleanBefore(states: seq<State>, events: seq<Event>, j: nat, i: nat, g: string)
    requires Run(states, events) && j <= i < |states| && Clean(states[i].Memory(g))
    ensures Clean(states[j].Memory(g))
    decreases i - j
  {
    if j < i {
      CleanBefore(states, events, j + 1, i, g);
      StepKeepsPlaces(states[j], events[j], states[j + 1], g);
    }
  }

  lemma StepKeepsPlaces(s: State, e: Event, s': State, g: string)
    requires Step(s, e, s')
    ensures Clean(s'.Memory(g)) ==> Clean(s.Memory(g))
  {
    forall place | place in s.Memory(g)
      ensures place in s'.Memory(g)
    {
      StepAtPlace(s, e, s', g, place);
    }
  }

  /** Outside the window a restart resumes, for every finished commit, at the
      offset of that commit or of one inserted for the same place after it. */
  lemma RestartResumesNoEarlier(states: seq<State>, events: seq<Event>, k: nat, i: nat, g: string, place: Place, offset: u64)
    returns (last: nat, lastOffset: u64)
    requires Run(states, events) && k < i < |states| && NoneWrites(states[i].tasks, g) && Clean(states[i].Memory(g))
    requires Inserts(events, k, g, place, offset)
    requires events[k].task in states[i].tasks && states[i].tasks[events[k].task].phase.Done?
    ensures k <= last < i && Inserts(events, last, g, place, lastOffset)
    ensures var restored := Absorb(map[], states[i].File(g)); place in restored && restored[place] == lastOffset
  {
    var t := events[k].task;
    var b :| 0 <= b < k && events[b] == Begin(t, g, place, offset);
    StaysAsBegun(states, events, b, i, t, g, place, offset);
    var j := CrashOutsideWindow(states, events, i, g);
    CleanBefore(states, events, j, i, g);
    if j <= k {
      EntersByInsertion(states, events, k, j, g);
    }
    last, lastOffset := LatestInsertion(events, k, j, g, place, offset);
    LastInsertionWins(states, events, last, j, g, place, lastOffset);
  }

  /** And the window is real: at every truncation of every run the group has
      committed offsets, and a crash just then restores none of them. */
  lemma CrashAfterTruncation(states: seq<State>, events: seq<Event>, i: nat, t: nat)
    requires Run(states, events) && i < |events| && events[i] == Create(t)
    ensures t in states[i + 1].tasks
    ensures var g := states[i + 1].tasks[t].group;
            states[i + 1].Memory(g) != map[] && Absorb(map[], states[i + 1].File(g)) == map[]
  {
    assert Step(states[i], events[i], states[i + 1]);
    var g := states[i].tasks[t].group;
    InvariantHolds(states, events, i, g);
    assert Entered(states[i].tasks, t, g);
    assert Lines("") == [];
  }
}
