/** Creates with an idempotency key (control/service.py, `create_sandbox`; state/repositories): any number of them race
    each other and the housekeeping. Between two queries to the database everything else may run. */
module Idempotency {
  import opened Resources

  /** Where a create is suspended. Losing the race for the unique index sends it through the look-up again. */
  datatype Phase =
    | ByKey(again: bool)                     // about to look the key up in the key table
    | ByRecord(found: string, again: bool)   // about to fetch the record the key table named
    | ByIndex(again: bool)                   // about to look for a record with this key
    | Inserting
    | Recording(id: string)                  // about to write the key table
    | Answered(id: string)
    | Refused
    | Raised                                 // lost the race, and then found nothing to join

  datatype Task = Task(key: Option<string>, phase: Phase)

  /** Records by id, with their keys; the key table; the creates; and every record there ever was. */
  datatype System = System(records: map<string, Option<string>>, keys: map<string, string>, tasks: map<int, Task>,
                           made: map<string, Option<string>>)

  datatype Move =
    | Arrive(t: int, key: Option<string>)
    | Query(t: int, id: string)        // one query; `id` is the record found or the new record's id
    | Refuse(t: int)                   // an invalid request, or one that can never fit
    | ExpireKeys(expired: set<string>)
    | DeleteRecords(ids: set<string>)

  /** The unique index: another record has this key. */
  ghost predicate Taken(s: System, key: Option<string>) {
    key.Some? && exists id :: id in s.records && s.records[id] == key
  }

  /** Only a non-empty key is looked up first and written to the key table. */
  predicate Keyed(key: Option<string>) {
    key.Some? && key.value != ""
  }

  ghost predicate Can(s: System, m: Move) {
    match m
    case Arrive(t, _) => t !in s.tasks
    case Query(t, id) =>
      && t in s.tasks && !s.tasks[t].phase.Answered? && !s.tasks[t].phase.Refused? && !s.tasks[t].phase.Raised?
      && (s.tasks[t].phase.ByIndex? && Taken(s, s.tasks[t].key) ==> id in s.records && s.records[id] == s.tasks[t].key)
      && (s.tasks[t].phase.Inserting? ==> id !in s.made)
    case Refuse(t) => t in s.tasks && s.tasks[t].phase.Inserting?
    case _ => true
  }

  function At(s: System, t: int, phase: Phase): System
    requires t in s.tasks
  {
    s.(tasks := s.tasks[t := s.tasks[t].(phase := phase)])
  }

  /** The unkeyed and the empty key go straight to the insert; the empty one is still in the index. */
  ghost function Queried(s: System, t: int, id: string): System
    requires Can(s, Query(t, id)) && (s.tasks[t].phase.Recording? ==> Keyed(s.tasks[t].key))
  {
    var key := s.tasks[t].key;
    match s.tasks[t].phase
    case ByKey(again) =>
      if key.Some? && key.value in s.keys then At(s, t, ByRecord(s.keys[key.value], again)) else At(s, t, ByIndex(again))
    case ByRecord(found, again) => if found in s.records then At(s, t, Answered(found)) else At(s, t, ByIndex(again))
    case ByIndex(again) =>
      if Taken(s, key) then At(s, t, Answered(id)) else At(s, t, if again then Raised else Inserting)
    case Inserting =>
      if Taken(s, key) then At(s, t, ByKey(true))
      else At(s, t, if Keyed(key) then Recording(id) else Answered(id)).(records := s.records[id := key],
                                                                        made := s.made[id := key])
    case Recording(mine) =>
      var after := At(s, t, Answered(mine));
      if key.value in s.keys then after else after.(keys := s.keys[key.value := mine])
  }

  ghost function Do(s: System, m: Move): System
    requires Can(s, m) && Inv(s)
  {
    match m
    case Arrive(t, key) => s.(tasks := s.tasks[t := Task(key, if Keyed(key) then ByKey(false) else Inserting)])
    case Query(t, id) =>
      assert TaskFits(s, s.tasks[t]);
      Queried(s, t, id)
    case Refuse(t) => At(s, t, Refused)
    case ExpireKeys(expired) => s.(keys := s.keys - expired)
    case DeleteRecords(ids) => s.(records := s.records - ids)
  }

  // ---- the invariant ----

  ghost predicate MadeFor(s: System, id: string, key: Option<string>) {
    id in s.made && s.made[id] == key
  }

  ghost predicate TaskFits(s: System, t: Task) {
    match t.phase
    case ByRecord(found, _) => MadeFor(s, found, t.key)
    case Recording(id) => Keyed(t.key) && MadeFor(s, id, t.key)
    case Answered(id) => MadeFor(s, id, t.key)
    case _ => true
  }

  /** Records have the key they were made with, and no two share one. */
  ghost predicate RecordsFit(s: System) {
    && (forall id :: id in s.records ==> MadeFor(s, id, s.records[id]))
    && (forall a, b :: a in s.records && b in s.records && s.records[a] == s.records[b] && s.records[a].Some? ==> a == b)
  }

  ghost predicate KeysFit(s: System) {
    forall k :: k in s.keys ==> MadeFor(s, s.keys[k], Some(k))
  }

  ghost predicate Inv(s: System) {
    RecordsFit(s) && KeysFit(s) && forall t :: t in s.tasks ==> TaskFits(s, s.tasks[t])
  }

  /** One query leaves the store as it is, inserts one record, or writes one key. */
  lemma QueryKeepsStore(s: System, t: int, id: string)
    requires Inv(s) && Can(s, Query(t, id))
    ensures RecordsFit(Do(s, Query(t, id))) && KeysFit(Do(s, Query(t, id)))
    ensures forall i, key :: MadeFor(s, i, key) ==> MadeFor(Do(s, Query(t, id)), i, key)
  {
    assert TaskFits(s, s.tasks[t]);
    var s' := Do(s, Query(t, id));
    assert forall i :: i in s.records ==> MadeFor(s, i, s.records[i]);
    if s.tasks[t].phase.Inserting? && !Taken(s, s.tasks[t].key) {
      assert s'.records == s.records[id := s.tasks[t].key] && s'.made == s.made[id := s.tasks[t].key];
    } else {
      assert s'.records == s.records && s'.made == s.made;
    }
  }

  lemma QueryKeepsTask(s: System, t: int, id: string)
    requires Inv(s) && Can(s, Query(t, id))
    ensures TaskFits(Do(s, Query(t, id)), Do(s, Query(t, id)).tasks[t])
    ensures Do(s, Query(t, id)).tasks == s.tasks[t := Do(s, Query(t, id)).tasks[t]]
  {
    assert TaskFits(s, s.tasks[t]);
    if s.tasks[t].phase.ByIndex? && Taken(s, s.tasks[t].key) {
      assert MadeFor(s, id, s.records[id]);
    }
  }

  lemma MoveKeepsInv(s: System, m: Move)
    requires Inv(s) && Can(s, m)
    ensures Inv(Do(s, m))
  {
    var s' := Do(s, m);
    if m.Query? {
      QueryKeepsStore(s, m.t, m.id);
      QueryKeepsTask(s, m.t, m.id);
      hide Do, Queried;
      TasksStay(s, s', m.t);
    }
  }

  lemma TasksStay(s: System, s': System, t: int)
    requires t in s'.tasks && s'.tasks == s.tasks[t := s'.tasks[t]] && TaskFits(s', s'.tasks[t])
    requires forall u :: u in s.tasks ==> TaskFits(s, s.tasks[u])
    requires forall i, key :: MadeFor(s, i, key) ==> MadeFor(s', i, key)
    ensures forall u :: u in s'.tasks ==> TaskFits(s', s'.tasks[u])
  {
    forall u | u in s'.tasks && u != t
      ensures TaskFits(s', s'.tasks[u])
    {
      assert TaskFits(s, s.tasks[u]);
    }
  }

  ghost predicate Runs(s: System, moves: seq<Move>, end: System)
    requires Inv(s)
    decreases |moves|
  {
    if moves == [] then end == s
    else Can(s, moves[0]) && (MoveKeepsInv(s, moves[0]); Runs(Do(s, moves[0]), moves[1..], end))
  }

  const START := System(map[], map[], map[], map[])

  /** Two creates with one key, both answered. */
  predicate BothAnswered(s: System, a: int, b: int) {
    && a in s.tasks && b in s.tasks && s.tasks[a].key == s.tasks[b].key && s.tasks[a].key.Some?
    && s.tasks[a].phase.Answered? && s.tasks[b].phase.Answered?
  }

  lemma {:induction false} RunsKeepInv(s: System, moves: seq<Move>, end: System)
    requires Inv(s) && Runs(s, moves, end)
    ensures Inv(end)
    decreases |moves|
  {
    if moves != [] {
      MoveKeepsInv(s, moves[0]);
      RunsKeepInv(Do(s, moves[0]), moves[1..], end);
    }
  }

  lemma AnswersAgree(s: System, a: int, b: int)
    requires Inv(s) && BothAnswered(s, a, b)
    requires s.tasks[a].phase.id in s.records && s.tasks[b].phase.id in s.records
    ensures s.tasks[a].phase.id == s.tasks[b].phase.id
  {
    assert TaskFits(s, s.tasks[a]) && TaskFits(s, s.tasks[b]);
  }

  /** Whatever the interleaving and whatever the housekeeping removes: two creates with the same key that have been
      answered with records that are both still there have been answered with the same one. */
  lemma NeverTwo(moves: seq<Move>, end: System, a: int, b: int)
    requires Runs(START, moves, end) && BothAnswered(end, a, b)
    requires end.tasks[a].phase.id in end.records && end.tasks[b].phase.id in end.records
    ensures end.tasks[a].phase.id == end.tasks[b].phase.id
  {
    RunsKeepInv(START, moves, end);
    AnswersAgree(end, a, b);
  }

  // ---- how a create is answered when nothing else moves ----

  lemma {:induction false} RunsSnoc(s: System, moves: seq<Move>, mid: System, m: Move)
    requires Inv(s) && Inv(mid) && Runs(s, moves, mid) && Can(mid, m)
    ensures Runs(s, moves + [m], Do(mid, m))
    decreases |moves|
  {
    hide Can, Do;
    if moves == [] {
      assert [m][1..] == [] && moves + [m] == [m];
      MoveKeepsInv(s, m);
    } else {
      MoveKeepsInv(s, moves[0]);
      RunsSnoc(Do(s, moves[0]), moves[1..], mid, m);
      assert (moves + [m])[1..] == moves[1..] + [m];
    }
  }

  function With(s: System, t: int, key: string, phase: Phase): System {
    s.(tasks := s.tasks[t := Task(Some(key), phase)])
  }

  lemma ArriveAndLook(s: System, t: int, key: string, id: string) returns (moves: seq<Move>, end: System)
    requires Inv(s) && t !in s.tasks && key != ""
    ensures Runs(s, moves, end) && Inv(end) && NothingDeleted(moves)
    ensures end == With(s, t, key, if key in s.keys then ByRecord(s.keys[key], false) else ByIndex(false))
  {
    var a, b := Arrive(t, Some(key)), Query(t, id);
    var s1 := Do(s, a);
    MoveKeepsInv(s, a);
    RunsSnoc(s, [], s, a);
    end := Do(s1, b);
    MoveKeepsInv(s1, b);
    RunsSnoc(s, [] + [a], s1, b);
    moves := [] + [a] + [b];
  }

  /** A create with a key nobody has used is answered with a record of its own, and the key is remembered. */
  lemma FirstCreateIsAnswered(s: System, t: int, key: string, id: string) returns (moves: seq<Move>, end: System)
    requires Inv(s) && t !in s.tasks && key != "" && key !in s.keys && !Taken(s, Some(key)) && id !in s.made
    ensures Runs(s, moves, end) && NothingDeleted(moves)
    ensures t in end.tasks && end.tasks[t] == Task(Some(key), Answered(id))
    ensures end.records == s.records[id := Some(key)] && end.keys == s.keys[key := id]
  {
    var looked, s1 := ArriveAndLook(s, t, key, id);
    var q := Query(t, id);
    var s2 := Do(s1, q);
    MoveKeepsInv(s1, q);
    RunsSnoc(s, looked, s1, q);
    assert s2 == With(s, t, key, Inserting);
    hide Inv, Can, Do, Runs;
    moves, end := InsertAndRecord(s, looked + [q], s2, t, key, id);
  }

  lemma InsertAndRecord(start: System, before: seq<Move>, s: System, t: int, key: string, id: string)
    returns (moves: seq<Move>, end: System)
    requires Inv(start) && Inv(s) && Runs(start, before, s) && NothingDeleted(before)
    requires t in s.tasks && s.tasks[t] == Task(Some(key), Inserting) && key != "" && key !in s.keys
    requires !Taken(s, Some(key)) && id !in s.made
    ensures Runs(start, moves, end) && NothingDeleted(moves)
    ensures t in end.tasks && end.tasks[t] == Task(Some(key), Answered(id))
    ensures end.records == s.records[id := Some(key)] && end.keys == s.keys[key := id]
  {
    var q := Query(t, id);
    var s1 := Do(s, q);
    MoveKeepsInv(s, q);
    RunsSnoc(start, before, s, q);
    end := Do(s1, q);
    RunsSnoc(start, before + [q], s1, q);
    moves := before + [q] + [q];
  }

  /** Without a key, or with an empty one, a create looks nothing up and leaves the key table alone. */
  lemma UnkeyedCreateIsAnswered(s: System, t: int, key: Option<string>, id: string)
    returns (moves: seq<Move>, end: System)
    requires Inv(s) && t !in s.tasks && id !in s.made
    requires key == None || (key == Some("") && !Taken(s, key))
    ensures Runs(s, moves, end) && NothingDeleted(moves) && |moves| == 2
    ensures t in end.tasks && end.tasks[t] == Task(key, Answered(id))
    ensures end.records == s.records[id := key] && end.keys == s.keys
  {
    var a, b := Arrive(t, key), Query(t, id);
    var s1 := Do(s, a);
    MoveKeepsInv(s, a);
    RunsSnoc(s, [], s, a);
    end := Do(s1, b);
    RunsSnoc(s, [] + [a], s1, b);
    moves := [] + [a] + [b];
  }

  /** A retry is answered with the record its key stands for: through the key table, or, when that has forgotten the
      key, through the index of the records. */
  lemma RetryIsAnswered(s: System, t: int, key: string, id: string) returns (moves: seq<Move>, end: System)
    requires Inv(s) && t !in s.tasks && key != "" && id in s.records && s.records[id] == Some(key)
    requires key in s.keys ==> s.keys[key] == id
    ensures Runs(s, moves, end) && NothingDeleted(moves)
    ensures end == With(s, t, key, Answered(id))
  {
    var looked, s1 := ArriveAndLook(s, t, key, id);
    var q := Query(t, id);
    end := Do(s1, q);
    RunsSnoc(s, looked, s1, q);
    moves := looked + [q];
    assert key !in s.keys ==> Taken(s1, Some(key));
  }

  /** A create that loses the race for the index is answered with the winner's record. */
  lemma LoserJoinsWinner(s: System, t: int, key: string, mine: string, id: string)
    returns (moves: seq<Move>, end: System)
    requires Inv(s) && t in s.tasks && s.tasks[t] == Task(Some(key), Inserting) && key != ""
    requires id in s.records && s.records[id] == Some(key) && key !in s.keys && mine !in s.made
    ensures Runs(s, moves, end) && NothingDeleted(moves)
    ensures end == With(s, t, key, Answered(id))
  {
    var lose, look := Query(t, mine), Query(t, id);
    assert Taken(s, Some(key));
    var s1 := Do(s, lose);
    MoveKeepsInv(s, lose);
    RunsSnoc(s, [], s, lose);
    var s2 := Do(s1, look);
    MoveKeepsInv(s1, look);
    RunsSnoc(s, [] + [lose], s1, look);
    assert Taken(s2, Some(key));
    end := Do(s2, look);
    RunsSnoc(s, [] + [lose] + [look], s2, look);
    moves := [] + [lose] + [look] + [look];
  }

  /** Until it is expired, a key stands for the record it was first remembered with. */
  lemma {:induction false} KeysStay(s: System, moves: seq<Move>, end: System, key: string)
    requires Inv(s) && Runs(s, moves, end) && key in s.keys
    requires forall i :: 0 <= i < |moves| ==> !moves[i].ExpireKeys?
    ensures key in end.keys && end.keys[key] == s.keys[key]
    decreases |moves|
  {
    if moves != [] {
      MoveKeepsInv(s, moves[0]);
      MoveKeepsKey(s, moves[0], key);
      hide Do, Can;
      KeysStay(Do(s, moves[0]), moves[1..], end, key);
    }
  }

  lemma MoveKeepsKey(s: System, m: Move, key: string)
    requires Inv(s) && Can(s, m) && key in s.keys && !m.ExpireKeys?
    ensures key in Do(s, m).keys && Do(s, m).keys[key] == s.keys[key]
  {
    if m.Query? {
      assert TaskFits(s, s.tasks[m.t]);
    }
  }

  // ---- while no record is deleted ----

  /** A create that lost the race can join the winner. */
  ghost predicate CanJoin(s: System, t: Task) {
    && !t.phase.Raised?
    && ((t.phase.ByKey? || t.phase.ByRecord? || t.phase.ByIndex?) && t.phase.again ==> Taken(s, t.key))
  }

  ghost predicate Complete(s: System) {
    s.records == s.made && forall t :: t in s.tasks ==> CanJoin(s, s.tasks[t])
  }

  lemma TakenStays(s: System, s': System)
    requires forall id :: id in s.records ==> id in s'.records && s'.records[id] == s.records[id]
    ensures forall key :: Taken(s, key) ==> Taken(s', key)
  {
    forall key | Taken(s, key)
      ensures Taken(s', key)
    {
      var id :| id in s.records && s.records[id] == key;
      assert id in s'.records && s'.records[id] == key;
    }
  }

  lemma QueryKeepsComplete(s: System, t: int, id: string)
    requires Inv(s) && Complete(s) && Can(s, Query(t, id))
    ensures var s' := Do(s, Query(t, id));
            s'.records == s'.made && CanJoin(s', s'.tasks[t]) && s'.tasks == s.tasks[t := s'.tasks[t]]
    ensures forall i :: i in s.records ==> i in Do(s, Query(t, id)).records
    ensures forall i :: i in s.records ==> Do(s, Query(t, id)).records[i] == s.records[i]
  {
    QueryKeepsTask(s, t, id);
    assert TaskFits(s, s.tasks[t]) && CanJoin(s, s.tasks[t]);
  }

  lemma MoveKeepsComplete(s: System, m: Move)
    requires Inv(s) && Complete(s) && Can(s, m) && !m.DeleteRecords?
    ensures Complete(Do(s, m))
  {
    var s' := Do(s, m);
    if m.Query? {
      QueryKeepsComplete(s, m.t, m.id);
      hide Do, Queried, Taken;
      TakenStays(s, s');
      forall u | u in s'.tasks
        ensures CanJoin(s', s'.tasks[u])
      {
        assert u != m.t ==> CanJoin(s, s.tasks[u]);
      }
    } else {
      TakenStays(s, s');
      forall u | u in s'.tasks
        ensures CanJoin(s', s'.tasks[u])
      {
        assert u in s.tasks ==> CanJoin(s, s.tasks[u]);
      }
    }
  }

  lemma StartHolds()
    ensures Inv(START) && Complete(START)
  {
  }

  predicate NothingDeleted(moves: seq<Move>) {
    forall i :: 0 <= i < |moves| ==> !moves[i].DeleteRecords?
  }

  lemma {:induction false} RunsKeepComplete(s: System, moves: seq<Move>, end: System)
    requires Inv(s) && Complete(s) && Runs(s, moves, end) && NothingDeleted(moves)
    ensures Inv(end) && Complete(end)
    decreases |moves|
  {
    if moves != [] {
      MoveKeepsInv(s, moves[0]);
      MoveKeepsComplete(s, moves[0]);
      RunsKeepComplete(Do(s, moves[0]), moves[1..], end);
    }
  }

  /** As long as no record is deleted, no create is turned away by the race, and all creates with one key get one
      record, also when the key table has forgotten the key. */
  lemma EveryRetryJoins(moves: seq<Move>, end: System, a: int, b: int)
    requires Runs(START, moves, end) && NothingDeleted(moves)
    ensures a in end.tasks ==> !end.tasks[a].phase.Raised?
    ensures BothAnswered(end, a, b) ==> end.tasks[a].phase.id == end.tasks[b].phase.id
  {
    StartHolds();
    RunsKeepComplete(START, moves, end);
    if a in end.tasks {
      assert CanJoin(end, end.tasks[a]) && TaskFits(end, end.tasks[a]);
    }
    if BothAnswered(end, a, b) {
      assert TaskFits(end, end.tasks[b]);
      AnswersAgree(end, a, b);
    }
  }
}
