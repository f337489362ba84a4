/** Concurrent writers of the shared registry: read, modify, replace if the version still matches, at most three times. */
module Registry {
  import opened Options
  import opened RegistryData

  // ----- The API server's object -----

  datatype ConfigMap = ConfigMap(version: nat, data: Data)

  /** `next` is the version of the next write; versions are never reused. */
  datatype Store = Store(current: Option<ConfigMap>, next: nat) {
    function Written(data: Data): Store {
      Store(Some(ConfigMap(next, data)), next + 1)
    }

    function Wiped(): Store {
      this.(current := None)
    }

    function Contents(): Option<Data> {
      match current case None => None case Some(cm) => Some(cm.data)
    }
  }

  // ----- One writer -----

  const ATTEMPTS := 3

  /** `readAt` is the store's next version when the writer read it. */
  datatype Phase =
    | Reading
    | Creating(data: Data, readAt: nat)
    | Replacing(version: nat, data: Data, readAt: nat)
    | Returned
    | Conflicted
    | Raised(applied: bool)
  {
    predicate Ended() {
      Returned? || Conflicted? || Raised?
    }

    /** The write took effect, whether or not the writer learned of it. */
    predicate TookEffect() {
      Returned? || (Raised? && applied)
    }
  }

  datatype Writer = Writer(policy: string, entry: Option<Entry>, attempt: nat, phase: Phase) {
    function To(p: Phase): Writer {
      this.(phase := p)
    }

    function Conflict(): Writer {
      if attempt + 1 < ATTEMPTS then this.(attempt := attempt + 1, phase := Reading) else To(Conflicted)
    }
  }

  /** How the API server treats a call: as it should, or with an error that may hide an applied write. */
  datatype Answer = Proper | Fault(applied: bool)

  datatype Moved = Moved(writer: Writer, store: Store)

  function Read(w: Writer, s: Store): Writer {
    match s.current
    case None => w.To(Creating(Rewritten(map[], w.policy, w.entry), s.next))
    case Some(cm) =>
      if !Readable(WithEntry(cm.data, w.policy, w.entry)) then w.To(Raised(false))
      else
        var data := Rewritten(cm.data, w.policy, w.entry);
        if data == cm.data then w.To(Returned) else w.To(Replacing(cm.version, data, s.next))
  }

  /** One API call of the writer and what follows up to the next. */
  function Move(w: Writer, s: Store, answer: Answer): Moved
    requires !w.phase.Ended()
  {
    match w.phase
    case Reading => Moved(if answer.Proper? then Read(w, s) else w.To(Raised(false)), s)
    case Creating(data, _) =>
      if s.current == None then
        match answer
        case Proper => Moved(w.To(Returned), s.Written(data))
        case Fault(applied) => Moved(w.To(Raised(applied)), if applied then s.Written(data) else s)
      else Moved(if answer.Proper? then w.Conflict() else w.To(Raised(false)), s)
    case Replacing(version, data, _) =>
      if s.current.Some? && s.current.value.version == version then
        match answer
        case Proper => Moved(w.To(Returned), s.Written(data))
        case Fault(applied) => Moved(w.To(Raised(applied)), if applied then s.Written(data) else s)
      else Moved(if answer.Proper? && s.current.Some? then w.Conflict() else w.To(Raised(false)), s)
  }

  function Rank(w: Writer): nat {
    if w.phase.Ended() || w.attempt >= ATTEMPTS then 0
    else 2 * (ATTEMPTS - w.attempt) - (if w.phase.Reading? then 0 else 1)
  }

  /** Every call brings a writer nearer its end, whatever the others do. */
  lemma WritersEnd(w: Writer, s: Store, answer: Answer)
    requires !w.phase.Ended() && w.attempt < ATTEMPTS
    ensures Rank(Move(w, s, answer).writer) < Rank(w) <= 6
    ensures Move(w, s, answer).writer.phase.Ended() || Move(w, s, answer).writer.attempt < ATTEMPTS
  {
    hide Rewritten, Readable, WithEntry;
  }

  // ----- Any number of writers -----

  datatype Task = Task(writer: Writer, spawnedAt: nat, firstVersion: nat)

  /** What took effect, in order. A rewrite that changes nothing counts when it is read. */
  datatype Commit = Put(writer: nat, policy: string, entry: Option<Entry>) | Wiped

  datatype System = System(initial: Option<Data>, store: Store, tasks: seq<Task>, log: seq<Commit>)

  datatype Action = Spawn(policy: string, entry: Option<Entry>) | Call(id: nat, answer: Answer) | Wipe

  predicate Enabled(sys: System, a: Action) {
    a.Call? ==> a.id < |sys.tasks| && !sys.tasks[a.id].writer.phase.Ended()
  }

  function Apply(sys: System, a: Action): System
    requires Enabled(sys, a)
  {
    match a
    case Spawn(policy, entry) =>
      sys.(tasks := sys.tasks + [Task(Writer(policy, entry, 0, Reading), |sys.log|, sys.store.next)])
    case Call(id, answer) =>
      var w := sys.tasks[id].writer;
      var moved := Move(w, sys.store, answer);
      sys.(store := moved.store,
           tasks := sys.tasks[id := sys.tasks[id].(writer := moved.writer)],
           log := if moved.writer.phase.TookEffect() then sys.log + [Put(id, w.policy, w.entry)] else sys.log)
    case Wipe => sys.(store := sys.store.Wiped(), log := sys.log + [Wiped])
  }

  ghost predicate Start(sys: System) {
    && sys.tasks == [] && sys.log == [] && sys.initial == sys.store.Contents()
    && (sys.store.current.Some? ==> sys.store.current.value.version < sys.store.next)
  }

  /** A run: every action enabled when its turn comes. */
  ghost predicate Reaches(start: System, actions: seq<Action>, end: System)
    decreases |actions|
  {
    if actions == [] then start == end
    else Enabled(start, actions[0]) && Reaches(Apply(start, actions[0]), actions[1..], end)
  }

  // ----- What the log says -----

  /** The registry a log stands for: each write applied to the outcome of those before it, one after the other. */
  function Replay(initial: Option<Data>, log: seq<Commit>): Option<Data> {
    if log == [] then initial
    else
      match log[|log| - 1]
      case Wiped => None
      case Put(_, policy, entry) =>
        Some(Rewritten(Replay(initial, log[..|log| - 1]).GetOr(map[]), policy, entry))
  }

  /** The value under a key according to the last write that concerned it. */
  function Latest(initial: Option<Data>, log: seq<Commit>, key: string): Option<Value> {
    if log == [] then if key in initial.GetOr(map[]) then Some(initial.value[key]) else None
    else
      match log[|log| - 1]
      case Wiped => None
      case Put(_, policy, entry) =>
        if Key(policy) != key then Latest(initial, log[..|log| - 1], key)
        else match entry case None => None case Some(e) => Some(Value.Object(e))
  }

  function Puts(log: seq<Commit>, id: nat): nat {
    if log == [] then 0
    else Puts(log[..|log| - 1], id) + (var c := log[|log| - 1]; if c.Put? && c.writer == id then 1 else 0)
  }

  // ----- The invariant -----

  /** What a writer between two calls relies on. */
  ghost predicate TaskFits(t: Task, s: Store) {
    var w := t.writer;
    match w.phase
    case Reading => w.attempt < ATTEMPTS && t.firstVersion + w.attempt <= s.next
    case Creating(data, readAt) =>
      && w.attempt < ATTEMPTS && t.firstVersion + w.attempt <= readAt <= s.next
      && data == Rewritten(map[], w.policy, w.entry)
      && (s.current.Some? ==> s.current.value.version >= readAt)
    case Replacing(version, data, readAt) =>
      && w.attempt < ATTEMPTS && t.firstVersion + w.attempt <= readAt <= s.next && version < readAt
      && (s.current.Some? ==>
          || s.current.value.version >= readAt
          || (s.current.value.version == version && data == Rewritten(s.current.value.data, w.policy, w.entry)))
    case Conflicted => t.firstVersion + ATTEMPTS <= s.next
    case _ => true
  }

  ghost predicate StoreFits(sys: System) {
    && sys.store.Contents() == Replay(sys.initial, sys.log)
    && (sys.store.current.Some? ==> sys.store.current.value.version < sys.store.next)
  }

  /** Every write in the log is some task's, of that task's entry, made after the task began. */
  ghost predicate LogFits(sys: System) {
    && (forall i :: 0 <= i < |sys.log| && sys.log[i].Put? ==>
          && sys.log[i].writer < |sys.tasks| && sys.tasks[sys.log[i].writer].spawnedAt <= i
          && sys.log[i].policy == sys.tasks[sys.log[i].writer].writer.policy
          && sys.log[i].entry == sys.tasks[sys.log[i].writer].writer.entry)
    && (forall id :: 0 <= id < |sys.tasks| ==> sys.tasks[id].spawnedAt <= |sys.log|)
    && (forall id :: 0 <= id < |sys.tasks| ==>
          Puts(sys.log, id) == if sys.tasks[id].writer.phase.TookEffect() then 1 else 0)
  }

  ghost predicate Invariant(sys: System) {
    && StoreFits(sys) && LogFits(sys)
    && forall id :: 0 <= id < |sys.tasks| ==> TaskFits(sys.tasks[id], sys.store)
  }

  // ----- Preservation -----

  /** A call does to the store what its place in the log says. */
  lemma MoveIsAtomic(t: Task, s: Store, answer: Answer)
    requires !t.writer.phase.Ended() && TaskFits(t, s)
    requires s.current.Some? ==> s.current.value.version < s.next
    ensures var m := Move(t.writer, s, answer);
            && (m.writer.phase.TookEffect() ==>
                m.store.Contents() == Some(Rewritten(s.Contents().GetOr(map[]), t.writer.policy, t.writer.entry)))
            && (!m.writer.phase.TookEffect() ==> m.store == s)
            && (m.store == s || m.store == s.Written(m.store.Contents().GetOr(map[])))
  {
    hide Rewritten, Readable, WithEntry;
  }

  lemma MoveKeepsFit(t: Task, s: Store, answer: Answer)
    requires !t.writer.phase.Ended() && TaskFits(t, s)
    requires s.current.Some? ==> s.current.value.version < s.next
    ensures var m := Move(t.writer, s, answer);
            TaskFits(t.(writer := m.writer), m.store)
  {
    hide Rewritten, Readable, WithEntry;
  }

  lemma OthersStayFit(t: Task, s: Store, data: Data)
    requires TaskFits(t, s)
    ensures TaskFits(t, s.Written(data)) && TaskFits(t, s.Wiped())
  {
    hide Rewritten;
  }

  lemma PutsAppend(log: seq<Commit>, c: Commit, id: nat)
    ensures Puts(log + [c], id) == Puts(log, id) + if c.Put? && c.writer == id then 1 else 0
  {
    assert (log + [c])[..|log|] == log;
  }

  lemma {:induction false} NoPutsOfStrangers(log: seq<Commit>, id: nat)
    requires forall i :: 0 <= i < |log| && log[i].Put? ==> log[i].writer != id
    ensures Puts(log, id) == 0
  {
    if log == [] {
    } else {
      NoPutsOfStrangers(log[..|log| - 1], id);
    }
  }

  lemma CallKeepsLog(sys: System, id: nat, answer: Answer)
    requires Invariant(sys) && Enabled(sys, Call(id, answer))
    ensures LogFits(Apply(sys, Call(id, answer)))
  {
    hide TaskFits, StoreFits, Puts, Readable, WithEntry, Rewritten;
    var w, moved := sys.tasks[id].writer, Move(sys.tasks[id].writer, sys.store, answer);
    assert moved.writer.policy == w.policy && moved.writer.entry == w.entry;
    hide Move;
    forall other | 0 <= other < |sys.tasks|
      ensures Puts(sys.log + [Put(id, w.policy, w.entry)], other) == Puts(sys.log, other) + if other == id then 1 else 0
    {
      PutsAppend(sys.log, Put(id, w.policy, w.entry), other);
    }
  }

  lemma CallKeepsInvariant(sys: System, id: nat, answer: Answer)
    requires Invariant(sys) && Enabled(sys, Call(id, answer))
    ensures Invariant(Apply(sys, Call(id, answer)))
  {
    hide TaskFits, LogFits, Rewritten, Move;
    var sys' := Apply(sys, Call(id, answer));
    var t := sys.tasks[id];
    MoveIsAtomic(t, sys.store, answer);
    MoveKeepsFit(t, sys.store, answer);
    CallKeepsLog(sys, id, answer);
    forall other | 0 <= other < |sys'.tasks| ensures TaskFits(sys'.tasks[other], sys'.store) {
      if other != id {
        OthersStayFit(sys.tasks[other], sys.store, sys'.store.Contents().GetOr(map[]));
      }
    }
    if Move(t.writer, sys.store, answer).writer.phase.TookEffect() {
      assert sys'.log[..|sys'.log| - 1] == sys.log;
    }
  }

  lemma SpawnKeepsInvariant(sys: System, policy: string, entry: Option<Entry>)
    requires Invariant(sys)
    ensures Invariant(Apply(sys, Spawn(policy, entry)))
  {
    hide Rewritten, Move, Puts;
    NoPutsOfStrangers(sys.log, |sys.tasks|);
  }

  lemma WipeKeepsInvariant(sys: System)
    requires Invariant(sys)
    ensures Invariant(Apply(sys, Wipe))
  {
    hide Rewritten, Move, Puts, TaskFits, Replay;
    var sys' := Apply(sys, Wipe);
    forall id | 0 <= id < |sys.tasks|
      ensures TaskFits(sys.tasks[id], sys'.store) && Puts(sys'.log, id) == Puts(sys.log, id)
    {
      OthersStayFit(sys.tasks[id], sys.store, map[]);
      PutsAppend(sys.log, Wiped, id);
    }
    WipeReplays(sys.initial, sys.log);
  }

  lemma WipeReplays(initial: Option<Data>, log: seq<Commit>)
    ensures Replay(initial, log + [Wiped]) == None
  {
  }

  lemma ApplyKeepsInvariant(sys: System, a: Action)
    requires Invariant(sys) && Enabled(sys, a)
    ensures Invariant(Apply(sys, a))
  {
    hide Invariant, Apply;
    match a {
      case Call(id, answer) => CallKeepsInvariant(sys, id, answer);
      case Spawn(policy, entry) => SpawnKeepsInvariant(sys, policy, entry);
      case Wipe => WipeKeepsInvariant(sys);
    }
  }

  lemma {:induction false} RunKeepsInvariant(start: System, actions: seq<Action>, end: System)
    requires Invariant(start) && Reaches(start, actions, end)
    ensures Invariant(end) && end.initial == start.initial
    decreases |actions|
  {
    hide Invariant, Move;
    if actions == [] {
    } else {
      ApplyKeepsInvariant(start, actions[0]);
      RunKeepsInvariant(Apply(start, actions[0]), actions[1..], end);
    }
  }

  lemma Reachable(start: System, actions: seq<Action>, end: System)
    requires Start(start) && Reaches(start, actions, end)
    ensures Invariant(end) && end.initial == start.initial
  {
    RunKeepsInvariant(start, actions, end);
  }

  // ----- Results -----

  /**
   * The registry is linearizable: it is what the writes in the log make of it one after the other, a writer that
   * returned has exactly one write there, made while it ran, and one that gave up or failed unapplied has none.
   */
  lemma RegistryIsLinearizable(start: System, actions: seq<Action>, end: System)
    requires Start(start) && Reaches(start, actions, end)
    ensures end.store.Contents() == Replay(start.initial, end.log)
    ensures forall id :: 0 <= id < |end.tasks| ==>
              Puts(end.log, id) == if end.tasks[id].writer.phase.TookEffect() then 1 else 0
    ensures forall i :: 0 <= i < |end.log| && end.log[i].Put? ==>
              && end.log[i].writer < |end.tasks| && end.tasks[end.log[i].writer].spawnedAt <= i
              && end.log[i].policy == end.tasks[end.log[i].writer].writer.policy
              && end.log[i].entry == end.tasks[end.log[i].writer].writer.entry
  {
    hide TaskFits;
    Reachable(start, actions, end);
  }

  /** Every value of the registry is the one from the latest write of its policy; no sibling's is ever lost. */
  lemma LatestWriteWins(start: System, actions: seq<Action>, end: System, key: string)
    requires Start(start) && Reaches(start, actions, end) && key != AGGREGATE_KEY
    ensures end.store.current.Some? ==>
              var data := end.store.current.value.data;
              && (key in data <==> Latest(start.initial, end.log, key).Some?)
              && (key in data ==> Latest(start.initial, end.log, key) == Some(data[key]))
  {
    hide TaskFits, LogFits, Replay, Latest;
    Reachable(start, actions, end);
    ReplayHasLatest(start.initial, end.log, key);
  }

  lemma {:induction false} ReplayHasLatest(initial: Option<Data>, log: seq<Commit>, key: string)
    requires key != AGGREGATE_KEY
    ensures var data := Replay(initial, log).GetOr(map[]);
            && (key in data <==> Latest(initial, log, key).Some?)
            && (key in data ==> Latest(initial, log, key) == Some(data[key]))
  {
    hide Rewritten;
    if log != [] && log[|log| - 1].Put? {
      var c, before := log[|log| - 1], Replay(initial, log[..|log| - 1]).GetOr(map[]);
      if Key(c.policy) == key {
        RewrittenHasEntry(before, c.policy, c.entry);
      } else {
        ReplayHasLatest(initial, log[..|log| - 1], key);
        RewrittenKeepsSiblings(before, c.policy, c.entry, key);
      }
    }
  }

  /** From the first write on, at every moment, the aggregate is the aggregate of the entries beside it. */
  lemma AggregateIsAlwaysTrue(start: System, actions: seq<Action>, end: System)
    requires Start(start) && Reaches(start, actions, end)
    requires start.store.current == None || end.log != []
    ensures end.store.current.Some? ==> Consistent(end.store.current.value.data)
  {
    hide TaskFits, LogFits, Rewritten, Consistent;
    Reachable(start, actions, end);
    if end.store.current.Some? {
      var c := end.log[|end.log| - 1];
      RewrittenIsConsistent(Replay(start.initial, end.log[..|end.log| - 1]).GetOr(map[]), c.policy, c.entry);
    }
  }

  /** A writer that gives up lost three races, each to a write that took effect while it ran. */
  lemma ConflictsArePaidFor(start: System, actions: seq<Action>, end: System, id: nat)
    requires Start(start) && Reaches(start, actions, end) && id < |end.tasks|
    ensures var t := end.tasks[id];
            && (t.writer.phase.Conflicted? ==> end.store.next >= t.firstVersion + 3)
            && (!t.writer.phase.Ended() ==> t.writer.attempt < 3 && end.store.next >= t.firstVersion + t.writer.attempt)
  {
    hide Rewritten, LogFits, StoreFits;
    Reachable(start, actions, end);
  }

  /** A writer left alone for two calls returns, and the registry has its entry and a true aggregate. */
  lemma UndisturbedWriterReturns(w: Writer, s: Store)
    requires w.phase.Reading? && Readable(WithEntry(s.Contents().GetOr(map[]), w.policy, w.entry))
    ensures var read := Move(w, s, Proper);
            var done := if read.writer.phase.Ended() then read else Move(read.writer, read.store, Proper);
            && done.writer.phase.Returned?
            && done.store.Contents() == Some(Rewritten(s.Contents().GetOr(map[]), w.policy, w.entry))
  {
    hide Rewritten, Readable, WithEntry;
  }

  /** What a writer makes of an object it has read: it raises exactly when some other policy's entry is JSON but no object,
      returns at once when there is nothing to change, and otherwise is about to replace what it read. */
  lemma ReadExactly(w: Writer, s: Store)
    requires w.phase.Reading? && s.current.Some?
    ensures var cm, m := s.current.value, Move(w, s, Proper);
            var data := Rewritten(cm.data, w.policy, w.entry);
            var junk := exists k :: k in cm.data && IsPolicyKey(k) && k != Key(w.policy) && cm.data[k].NotObject?;
            && m.store == s && m.writer.policy == w.policy && m.writer.entry == w.entry && m.writer.attempt == w.attempt
            && (junk <==> m.writer.phase == Raised(false))
            && (!junk ==> m.writer.phase == if data == cm.data then Returned else Replacing(cm.version, data, s.next))
  {
    hide Rewritten, IsPolicyKey;
    JunkExactly(s.current.value.data, w.policy, w.entry);
  }

  lemma JunkExactly(data: Data, policy: string, entry: Option<Entry>)
    ensures !Readable(WithEntry(data, policy, entry))
            <==> exists k :: k in data && IsPolicyKey(k) && k != Key(policy) && data[k].NotObject?
  {
    hide IsPolicyKey;
    var updated := WithEntry(data, policy, entry);
    forall k | k != Key(policy) ensures (k in updated <==> k in data) && (k in data ==> updated[k] == data[k]) {
    }
    assert Key(policy) in updated ==> updated[Key(policy)].Object?;
  }

  /** What a later moment's registry can look like, seen from a moment when `s` was stored. */
  ghost predicate Since(s: Store, later: Store) {
    && s.next <= later.next
    && (later.current.Some? ==> later.current == s.current || later.current.value.version >= s.next)
  }

  lemma {:induction false} VersionsGrow(sys: System, actions: seq<Action>, end: System, s: Store)
    requires Invariant(sys) && Reaches(sys, actions, end) && Since(s, sys.store)
    ensures Since(s, end.store)
    decreases |actions|
  {
    hide Invariant, TaskFits;
    if actions == [] {
    } else {
      ApplyKeepsInvariant(sys, actions[0]);
      assert Since(s, Apply(sys, actions[0]).store) by {
        hide Rewritten, Readable, WithEntry;
      }
      VersionsGrow(Apply(sys, actions[0]), actions[1..], end, s);
    }
  }

  /** A version never comes back with other contents. */
  lemma VersionsIdentifyContents(sys: System, actions: seq<Action>, end: System)
    requires Invariant(sys) && Reaches(sys, actions, end)
    requires sys.store.current.Some? && end.store.current.Some?
    requires sys.store.current.value.version == end.store.current.value.version
    ensures sys.store.current == end.store.current
  {
    hide Rewritten, TaskFits, LogFits;
    VersionsGrow(sys, actions, end, sys.store);
  }

  // ----- Any writes can happen -----

  /** Nothing in the registry makes aggregation raise. */
  ghost predicate AllObjects(s: Store) {
    s.current.Some? ==> forall k :: k in s.current.value.data ==> s.current.value.data[k].Object?
  }

  lemma AllObjectsReadable(s: Store, policy: string, entry: Option<Entry>)
    requires AllObjects(s)
    ensures Readable(WithEntry(s.Contents().GetOr(map[]), policy, entry))
  {
    hide IsPolicyKey;
  }

  lemma RewrittenAllObjects(s: Store, policy: string, entry: Option<Entry>)
    requires AllObjects(s)
    ensures var data := Rewritten(s.Contents().GetOr(map[]), policy, entry);
            forall k :: k in data ==> data[k].Object?
  {
    hide Aggregate;
  }

  lemma {:induction false} ReachesAppend(a: System, first: seq<Action>, b: System, second: seq<Action>, c: System)
    requires Reaches(a, first, b) && Reaches(b, second, c)
    ensures Reaches(a, first + second, c)
    decreases |first|
  {
    hide Apply, Enabled;
    if first == [] {
      assert first + second == second;
    } else {
      ReachesAppend(Apply(a, first[0]), first[1..], b, second, c);
      assert (first + second)[1..] == first[1..] + second;
    }
  }

  /** A new writer that is left alone adds its write. */
  lemma OneMoreWrite(sys: System, policy: string, entry: Option<Entry>) returns (actions: seq<Action>, end: System)
    requires AllObjects(sys.store)
    ensures Reaches(sys, actions, end) && AllObjects(end.store)
    ensures end.log == sys.log + [Put(|sys.tasks|, policy, entry)]
  {
    hide Rewritten, Readable, WithEntry, Move, Rank, Reaches;
    var id, w := |sys.tasks|, Writer(policy, entry, 0, Reading);
    AllObjectsReadable(sys.store, policy, entry);
    RewrittenAllObjects(sys.store, policy, entry);
    UndisturbedWriterReturns(w, sys.store);
    ReadOnlyReads(w, sys.store);
    var spawned := Apply(sys, Spawn(policy, entry));
    var read := Apply(spawned, Call(id, Proper));
    assert spawned.tasks[id].writer == w && spawned.store == sys.store;
    OneAction(sys, Spawn(policy, entry));
    OneAction(spawned, Call(id, Proper));
    actions, end := [Spawn(policy, entry)] + [Call(id, Proper)], read;
    ReachesAppend(sys, [Spawn(policy, entry)], spawned, [Call(id, Proper)], read);
    if !read.tasks[id].writer.phase.Ended() {
      end := Apply(read, Call(id, Proper));
      OneAction(read, Call(id, Proper));
      ReachesAppend(sys, actions, read, [Call(id, Proper)], end);
      actions := actions + [Call(id, Proper)];
    }
  }

  lemma OneAction(sys: System, a: Action)
    requires Enabled(sys, a)
    ensures Reaches(sys, [a], Apply(sys, a))
  {
    hide Apply, Enabled;
    assert [a][1..] == [];
    assert Reaches(Apply(sys, a), [], Apply(sys, a));
  }

  /** The first call of a writer ends it only if there is nothing to write, and never changes the store. */
  lemma ReadOnlyReads(w: Writer, s: Store)
    requires w.phase.Reading? && Readable(WithEntry(s.Contents().GetOr(map[]), w.policy, w.entry))
    ensures var m := Move(w, s, Proper);
            && m.store == s && m.writer.policy == w.policy && m.writer.entry == w.entry
            && (m.writer.phase.Ended() <==> m.writer.phase.Returned?)
            && (!m.writer.phase.Ended() ==> !m.writer.phase.TookEffect())
  {
    hide Rewritten, Readable, WithEntry;
  }

  /** Every sequence of writes is the log of some run from a registry that does not exist. */
  lemma {:induction false} WritesCanHappen(log: seq<Commit>) returns (start: System, actions: seq<Action>, end: System)
    requires forall i :: 0 <= i < |log| ==> log[i].Put?
    ensures Start(start) && start.store.current == None && Reaches(start, actions, end) && AllObjects(end.store)
    ensures SameWrites(end.log, log)
  {
    hide Reaches, AllObjects;
    if log == [] {
      start := System(None, Store(None, 0), [], []);
      actions, end := [], start;
      NoActions(start);
    } else {
      var init, last := log[..|log| - 1], log[|log| - 1];
      var before, mid;
      start, before, mid := WritesCanHappen(init);
      var more;
      more, end := OneMoreWrite(mid, last.policy, last.entry);
      ReachesAppend(start, before, mid, more, end);
      actions := before + more;
    }
  }

  lemma NoActions(sys: System)
    ensures Reaches(sys, [], sys)
    ensures sys.store.current == None ==> AllObjects(sys.store)
  {
  }

  /** The same writes, by whatever writers. */
  ghost predicate SameWrites(log: seq<Commit>, log': seq<Commit>) {
    && |log| == |log'|
    && forall i :: 0 <= i < |log| ==>
         log[i].Put? && log'[i].Put? && log[i].policy == log'[i].policy && log[i].entry == log'[i].entry
  }
}
