/** The retry loop of one writer, run against an API server on which others write between its calls. */
module RegistryWriter {
  import opened Options
  import opened RegistryData
  import opened Registry

  datatype Rival = Writes(policy: string, entry: Option<Entry>) | Deletes

  /** What others do before the writer's next call, and how that call is treated. */
  datatype Turn = Turn(rivals: seq<Rival>, answer: Answer)

  function Interfered(s: Store, rivals: seq<Rival>): Store {
    if rivals == [] then s
    else
      var before := Interfered(s, rivals[..|rivals| - 1]);
      match rivals[|rivals| - 1]
      case Deletes => before.Wiped()
      case Writes(policy, entry) => before.Written(Rewritten(before.Contents().GetOr(map[]), policy, entry))
  }

  datatype ReadReply = Found(cm: ConfigMap) | NotFound | ReadError

  datatype WriteReply = Accepted | Conflict | WriteError(applied: bool)

  class ApiServer {
    var store: Store
    var turns: seq<Turn>

    constructor (store: Store, turns: seq<Turn>)
      ensures this.store == store && this.turns == turns
    {
      this.store, this.turns := store, turns;
    }

    /** Lets the others have their turn. */
    method Await() returns (answer: Answer)
      modifies this
      ensures var turn := NextTurn(old(turns));
              answer == turn.answer && store == Interfered(old(store), turn.rivals) && turns == Later(old(turns))
    {
      var turn := NextTurn(turns);
      var s, i := store, 0;
      while i < |turn.rivals|
        invariant 0 <= i <= |turn.rivals| && s == Interfered(store, turn.rivals[..i])
      {
        assert turn.rivals[..i + 1][..i] == turn.rivals[..i];
        s := match turn.rivals[i]
          case Deletes => s.Wiped()
          case Writes(policy, entry) => s.Written(Rewritten(s.Contents().GetOr(map[]), policy, entry));
        i := i + 1;
      }
      assert turn.rivals[..|turn.rivals|] == turn.rivals;
      store, turns, answer := s, Later(turns), turn.answer;
    }

    method ReadConfigMap() returns (r: ReadReply)
      modifies this
      ensures var turn := NextTurn(old(turns));
              && store == Interfered(old(store), turn.rivals) && turns == Later(old(turns))
              && r == if turn.answer.Fault? then ReadError
                      else match store.current case None => NotFound case Some(cm) => Found(cm)
    {
      var answer := Await();
      if answer.Fault? {
        return ReadError;
      }
      r := match store.current case None => NotFound case Some(cm) => Found(cm);
    }

    method CreateConfigMap(data: Data) returns (r: WriteReply)
      modifies this
      ensures var turn := NextTurn(old(turns));
              var before := Interfered(old(store), turn.rivals);
              && turns == Later(old(turns))
              && r == Reply(before.current == None, turn.answer)
              && store == if Applied(r) then before.Written(data) else before
    {
      var answer := Await();
      r := Reply(store.current == None, answer);
      if Applied(r) {
        store := store.Written(data);
      }
    }

    method ReplaceConfigMap(version: nat, data: Data) returns (r: WriteReply)
      modifies this
      ensures var turn := NextTurn(old(turns));
              var before := Interfered(old(store), turn.rivals);
              && turns == Later(old(turns))
              && r == (if before.current == None && turn.answer.Proper? then WriteError(false)
                       else Reply(before.current.Some? && before.current.value.version == version, turn.answer))
              && store == if Applied(r) then before.Written(data) else before
    {
      var answer := Await();
      if store.current == None && answer.Proper? {
        return WriteError(false);
      }
      r := Reply(store.current.Some? && store.current.value.version == version, answer);
      if Applied(r) {
        store := store.Written(data);
      }
    }
  }

  /** Undisturbed once the script is over. */
  function NextTurn(turns: seq<Turn>): Turn {
    if turns == [] then Turn([], Proper) else turns[0]
  }

  function Later(turns: seq<Turn>): seq<Turn> {
    if turns == [] then [] else turns[1..]
  }

  function Reply(expected: bool, answer: Answer): WriteReply {
    match answer
    case Proper => if expected then Accepted else Conflict
    case Fault(applied) => WriteError(applied && expected)
  }

  predicate Applied(r: WriteReply) {
    r.Accepted? || (r.WriteError? && r.applied)
  }

  /** The writer's state machine, run to its end among the scripted turns. */
  function Outcome(w: Writer, s: Store, turns: seq<Turn>): (r: (Phase, Store))
    requires w.attempt < ATTEMPTS || w.phase.Ended()
    ensures r.0.Ended()
    decreases Rank(w)
  {
    if w.phase.Ended() then (w.phase, s)
    else
      var turn, before := NextTurn(turns), Interfered(s, NextTurn(turns).rivals);
      WritersEnd(w, before, turn.answer);
      var moved := Move(w, before, turn.answer);
      Outcome(moved.writer, moved.store, Later(turns))
  }

  lemma OneCall(w: Writer, s: Store, turns: seq<Turn>)
    requires w.attempt < ATTEMPTS && !w.phase.Ended()
    ensures var before := Interfered(s, NextTurn(turns).rivals);
            var moved := Move(w, before, NextTurn(turns).answer);
            && (moved.writer.attempt < ATTEMPTS || moved.writer.phase.Ended())
            && Outcome(w, s, turns) == if moved.writer.phase.Ended() then (moved.writer.phase, moved.store)
                                       else Outcome(moved.writer, moved.store, Later(turns))
  {
    WritersEnd(w, Interfered(s, NextTurn(turns).rivals), NextTurn(turns).answer);
  }

  method WriteBoostRegistry(api: ApiServer, policy: string, entry: Option<Entry>) returns (outcome: Phase)
    modifies api
    ensures (outcome, api.store) == Outcome(Writer(policy, entry, 0, Reading), old(api.store), old(api.turns))
  {
    hide Interfered, Aggregate, Rewritten, Readable, WithEntry, Rank, Outcome, NextTurn, Later;
    ghost var final := Outcome(Writer(policy, entry, 0, Reading), api.store, api.turns);
    for attempt := 0 to ATTEMPTS
      invariant attempt < ATTEMPTS ==> Outcome(Writer(policy, entry, attempt, Reading), api.store, api.turns) == final
      invariant attempt == ATTEMPTS ==> (Phase.Conflicted, api.store) == final
    {
      OneCall(Writer(policy, entry, attempt, Reading), api.store, api.turns);
      var current := api.ReadConfigMap();
      var reply;
      match current {
        case ReadError =>
          return Raised(false);
        case NotFound =>
          var data := Rewritten(map[], policy, entry);
          OneCall(Writer(policy, entry, attempt, Creating(data, api.store.next)), api.store, api.turns);
          reply := api.CreateConfigMap(data);
        case Found(cm) =>
          if !Readable(WithEntry(cm.data, policy, entry)) {
            return Raised(false);
          }
          var data := Rewritten(cm.data, policy, entry);
          if data == cm.data {
            return Returned;
          }
          OneCall(Writer(policy, entry, attempt, Replacing(cm.version, data, api.store.next)), api.store, api.turns);
          reply := api.ReplaceConfigMap(cm.version, data);
      }
      match reply {
        case Accepted => return Returned;
        case WriteError(applied) => return Raised(applied);
        case Conflict =>
      }
    }
    return Phase.Conflicted;
  }

  // ----- What the writer has achieved -----

  /** Between its calls the writer holds data that has its entry and a true aggregate. */
  ghost predicate HoldsOwnWork(w: Writer) {
    match w.phase
    case Creating(data, _) => Carries(data, w.policy, w.entry)
    case Replacing(_, data, _) => Carries(data, w.policy, w.entry)
    case _ => !w.phase.Ended()
  }

  ghost predicate Carries(data: Data, policy: string, entry: Option<Entry>) {
    && Consistent(data)
    && (Key(policy) != AGGREGATE_KEY ==>
          && (Key(policy) in data <==> entry.Some?)
          && (entry.Some? ==> data[Key(policy)] == Value.Object(entry.value)))
  }

  lemma RewrittenCarries(data: Data, policy: string, entry: Option<Entry>)
    ensures Carries(Rewritten(data, policy, entry), policy, entry)
  {
    hide Rewritten, Consistent;
    RewrittenIsConsistent(data, policy, entry);
    if Key(policy) != AGGREGATE_KEY {
      RewrittenHasEntry(data, policy, entry);
    }
  }

  /** When the loop returns normally, the registry it leaves has the entry, or lacks it if it was to be removed. */
  lemma {:induction false} ReturningMeansPublished(w: Writer, s: Store, turns: seq<Turn>)
    requires w.attempt < ATTEMPTS && HoldsOwnWork(w)
    ensures var (phase, end) := Outcome(w, s, turns);
            phase.Returned? ==> end.current.Some? && Carries(end.current.value.data, w.policy, w.entry)
    decreases Rank(w)
  {
    hide Carries, Rewritten, Readable, WithEntry, Interfered, Rank;
    var turn, before := NextTurn(turns), Interfered(s, NextTurn(turns).rivals);
    WritersEnd(w, before, turn.answer);
    RewrittenCarries(before.Contents().GetOr(map[]), w.policy, w.entry);
    var moved := Move(w, before, turn.answer);
    if !moved.writer.phase.Ended() {
      ReturningMeansPublished(moved.writer, moved.store, Later(turns));
    }
  }

  // ----- When the writer gives up -----

  /** Calls are answered properly, and the others only write. */
  ghost predicate OnlyRaces(turns: seq<Turn>) {
    forall i :: 0 <= i < |turns| ==> turns[i].answer.Proper? && forall j :: 0 <= j < |turns[i].rivals| ==> turns[i].rivals[j].Writes?
  }

  ghost function TurnAt(turns: seq<Turn>, k: nat): Turn {
    if k < |turns| then turns[k] else Turn([], Proper)
  }

  /** The store after the others' first `k` turns. */
  ghost function StoreAfter(s: Store, turns: seq<Turn>, k: nat): Store {
    if k == 0 then s else Interfered(StoreAfter(s, turns, k - 1), TurnAt(turns, k - 1).rivals)
  }

  /** In round `i` there is something to write, and somebody writes between the read and the write. */
  ghost predicate LosesRace(policy: string, entry: Option<Entry>, s: Store, turns: seq<Turn>, i: nat) {
    var read := StoreAfter(s, turns, 2 * i + 1);
    && read.Contents() != Some(Rewritten(read.Contents().GetOr(map[]), policy, entry))
    && TurnAt(turns, 2 * i + 1).rivals != []
  }

  ghost predicate WellVersioned(s: Store) {
    AllObjects(s) && (s.current.Some? ==> s.current.value.version < s.next)
  }

  lemma {:induction false} RivalsBump(s: Store, rivals: seq<Rival>)
    requires WellVersioned(s) && forall j :: 0 <= j < |rivals| ==> rivals[j].Writes?
    ensures var after := Interfered(s, rivals);
            && WellVersioned(after) && s.next <= after.next
            && (rivals == [] ==> after == s)
            && (rivals != [] ==> after.current.Some? && after.current.value.version >= s.next)
  {
    hide Rewritten, AllObjects;
    if rivals == [] {
    } else {
      var before, last := Interfered(s, rivals[..|rivals| - 1]), rivals[|rivals| - 1];
      RivalsBump(s, rivals[..|rivals| - 1]);
      WriteKeepsObjects(before, last.policy, last.entry);
    }
  }

  lemma WriteKeepsObjects(s: Store, policy: string, entry: Option<Entry>)
    requires AllObjects(s)
    ensures AllObjects(s.Written(Rewritten(s.Contents().GetOr(map[]), policy, entry)))
  {
    hide Rewritten;
    RewrittenAllObjects(s, policy, entry);
  }

  lemma {:induction false} StoreAfterShift(s: Store, turns: seq<Turn>, k: nat)
    ensures StoreAfter(s, turns, k + 2) == StoreAfter(StoreAfter(s, turns, 2), Later(Later(turns)), k)
  {
    hide Interfered;
    if k == 0 {
    } else {
      StoreAfterShift(s, turns, k - 1);
    }
  }

  lemma LosesRaceShift(policy: string, entry: Option<Entry>, s: Store, turns: seq<Turn>, i: nat)
    ensures LosesRace(policy, entry, s, turns, i + 1)
            <==> LosesRace(policy, entry, StoreAfter(s, turns, 2), Later(Later(turns)), i)
  {
    hide Rewritten, StoreAfter;
    StoreAfterShift(s, turns, 2 * i + 1);
  }

  /** One round: the writer returns, or starts over with the store as the others have left it. */
  lemma OneRound(w: Writer, s: Store, turns: seq<Turn>)
    requires w.attempt < ATTEMPTS && w.phase.Reading? && WellVersioned(s) && OnlyRaces(turns)
    ensures LosesRace(w.policy, w.entry, s, turns, 0) ==>
              Outcome(w, s, turns) == Outcome(w.Conflict(), StoreAfter(s, turns, 2), Later(Later(turns)))
    ensures !LosesRace(w.policy, w.entry, s, turns, 0) ==> Outcome(w, s, turns).0 == Returned
    ensures WellVersioned(StoreAfter(s, turns, 2))
  {
    hide Rewritten, Readable, WithEntry, Outcome, Rank, Interfered, AllObjects;
    var read := Interfered(s, NextTurn(turns).rivals);
    assert StoreAfter(s, turns, 0) == s && StoreAfter(s, turns, 1) == read;
    RivalsBump(s, NextTurn(turns).rivals);
    AllObjectsReadable(read, w.policy, w.entry);
    OneCall(w, s, turns);
    var after := Move(w, read, Proper).writer;
    var found := Interfered(read, NextTurn(Later(turns)).rivals);
    assert StoreAfter(s, turns, 2) == found;
    RivalsBump(read, NextTurn(Later(turns)).rivals);
    if !after.phase.Ended() {
      OneCall(after, read, Later(turns));
      OutcomeOfEnded(w.To(Conflicted), found, Later(Later(turns)));
    }
  }

  lemma OutcomeOfEnded(w: Writer, s: Store, turns: seq<Turn>)
    requires w.phase.Ended()
    ensures Outcome(w, s, turns) == (w.phase, s)
  {
  }

  lemma {:induction false} RoundsDecide(policy: string, entry: Option<Entry>, attempt: nat, s: Store, turns: seq<Turn>)
    requires attempt < ATTEMPTS && WellVersioned(s) && OnlyRaces(turns)
    ensures Outcome(Writer(policy, entry, attempt, Reading), s, turns).0
         == if forall i :: 0 <= i < ATTEMPTS - attempt ==> LosesRace(policy, entry, s, turns, i) then Phase.Conflicted else Returned
    decreases ATTEMPTS - attempt
  {
    hide LosesRace, StoreAfter, Outcome, WellVersioned;
    var w := Writer(policy, entry, attempt, Reading);
    OneRound(w, s, turns);
    if LosesRace(policy, entry, s, turns, 0) {
      var later, rest := StoreAfter(s, turns, 2), Later(Later(turns));
      if attempt + 1 < ATTEMPTS {
        RoundsDecide(policy, entry, attempt + 1, later, rest);
        forall i | 0 <= i < ATTEMPTS - attempt - 1
          ensures LosesRace(policy, entry, s, turns, i + 1) <==> LosesRace(policy, entry, later, rest, i)
        {
          LosesRaceShift(policy, entry, s, turns, i);
        }
        assert forall i :: 0 < i < ATTEMPTS - attempt ==>
                 (LosesRace(policy, entry, s, turns, i) <==> LosesRace(policy, entry, later, rest, i - 1));
      } else {
        OutcomeOfEnded(w.Conflict(), later, rest);
      }
    }
  }

  /** Among writers whose calls all get through, the loop gives up exactly when each of its three rounds finds something to
      write and loses the race for it; otherwise it returns. */
  lemma GivesUpExactly(policy: string, entry: Option<Entry>, s: Store, turns: seq<Turn>)
    requires WellVersioned(s) && OnlyRaces(turns)
    ensures var phase := Outcome(Writer(policy, entry, 0, Reading), s, turns).0;
            && (phase.Conflicted? <==> forall i :: 0 <= i < 3 ==> LosesRace(policy, entry, s, turns, i))
            && (phase.Conflicted? || phase.Returned?)
  {
    hide LosesRace, Outcome;
    RoundsDecide(policy, entry, 0, s, turns);
  }
}
