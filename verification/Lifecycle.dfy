/** Sandbox states (schemas/common.py) and every write of them by the control plane (control/service.py). Each coroutine
    works on its own copy of the record: it reads the store, is suspended, and writes the copy back. */
module Lifecycle {
  import opened Resources

  datatype SandboxState = PENDING | WAITING_FOR_CAPACITY | PROVISIONING_WORKER | CREATING | RUNNING | STOPPING
                        | STOPPED | FAILED | LOST | EXPIRED
  {
    predicate Terminal() {
      this in {STOPPED, FAILED, LOST, EXPIRED}
    }

    /** Not yet on any worker. */
    predicate Waiting() {
      this in {PENDING, WAITING_FOR_CAPACITY, PROVISIONING_WORKER}
    }

    function Successors(): set<SandboxState> {
      match this
      case PENDING => {WAITING_FOR_CAPACITY, PROVISIONING_WORKER, CREATING, STOPPED, FAILED}
      case WAITING_FOR_CAPACITY => {PROVISIONING_WORKER, CREATING, STOPPED, FAILED}
      case PROVISIONING_WORKER => {WAITING_FOR_CAPACITY, CREATING, STOPPED, FAILED}
      case CREATING => {RUNNING, FAILED, LOST, STOPPING, WAITING_FOR_CAPACITY}
      case RUNNING => {STOPPING, STOPPED, LOST, EXPIRED, FAILED}
      case STOPPING => {STOPPED, EXPIRED, LOST, FAILED}
      case _ => {}
    }
  }

  /** `assert_sandbox_transition` lets the write through. */
  predicate Legal(current: SandboxState, next: SandboxState) {
    next == current || next in current.Successors()
  }

  /** The same table by where a write leads. */
  lemma LegalIff(current: SandboxState, next: SandboxState)
    ensures Legal(current, next) <==> current == next || match next
            case PENDING => false
            case WAITING_FOR_CAPACITY => current in {PENDING, PROVISIONING_WORKER, CREATING}
            case PROVISIONING_WORKER => current in {PENDING, WAITING_FOR_CAPACITY}
            case CREATING => current in {PENDING, WAITING_FOR_CAPACITY, PROVISIONING_WORKER}
            case RUNNING => current == CREATING
            case STOPPING => current in {CREATING, RUNNING}
            case STOPPED => current in {PENDING, WAITING_FOR_CAPACITY, PROVISIONING_WORKER, RUNNING, STOPPING}
            case FAILED => current !in {STOPPED, LOST, EXPIRED}
            case LOST => current in {CREATING, RUNNING, STOPPING}
            case EXPIRED => current in {RUNNING, STOPPING}
  {
    match current
    case _ =>
  }

  datatype Record = Record(state: SandboxState, worker: Option<string>)

  /** A waiting sandbox has no worker; one that is creating, running or stopping has one. */
  predicate Placed(r: Record) {
    && (r.state.Waiting() ==> r.worker.None?)
    && (r.state in {CREATING, RUNNING, STOPPING} ==> r.worker.Some?)
  }

  /** A coroutine of the control plane that handles this sandbox, by where it is suspended. */
  datatype Task =
    | Placing(copy: Record)                       // the placement loop, waiting for its next turn
    | Deciding(copy: Record)                      // has seen a record that has not ended; about to place it or wait on
    | Calling(copy: Record)                       // the create request is with the worker
    | Confirming(copy: Record)                    // has seen a record still being created; about to report it running
    | Rejected(copy: Record)                      // the worker refused or cannot be reached; about to go back to waiting
    | Broken(copy: Record)                        // the worker failed the create, or its sandbox is not usable
    | Cleaning(copy: Record)                      // a kill was noticed after the create; removing the container
    | GivingUp(copy: Record)                      // timed out or cancelled; re-read, about to fail
    | Stopping(copy: Record, final: SandboxState) // a kill or an expiry that has read the record
    | Deleting(copy: Record, final: SandboxState) // ... has announced itself and asked the worker
    | Comparing(copy: Record)                     // the inventory pass, on a record listed as running
    | Losing(copy: Record)                        // the worker was terminated or lost
    | Recovering(copy: Record)                    // the control plane has just restarted

  datatype System = System(store: Record, tasks: map<int, Task>)

  /** What a suspended task believes about its copy. */
  predicate Believes(t: Task) {
    && Placed(t.copy)
    && match t
       case Placing(c) => c.state.Waiting()
       case Deciding(c) => c.state.Waiting()
       case Calling(c) => c.state == CREATING
       case Confirming(c) => c.state == CREATING
       case Rejected(c) => c.state == CREATING
       case Broken(c) => c.state == CREATING
       case Cleaning(c) => c.state != CREATING
       case GivingUp(c) => !c.state.Terminal()
       case Stopping(c, final) => !c.state.Terminal() && final in {STOPPED, EXPIRED}
       case Deleting(c, final) => c.state == STOPPING && final in {STOPPED, EXPIRED}
       case Comparing(c) => c.state == RUNNING
       case Losing(c) => !c.state.Terminal() && c.worker.Some?
       case Recovering(c) => !c.state.Terminal()
  }

  /** The record a task would write next, for each way it may go on. A placement writes nothing before it has looked at
      the record again. */
  predicate Writes(t: Task, r: Record) {
    match t
    case Placing(_) => false
    case Calling(_) => false
    case Deciding(c) =>
      || (r.state == CREATING && r.worker.Some?)
      || (r.state == PROVISIONING_WORKER && r.worker == c.worker)
      || (r.state == WAITING_FOR_CAPACITY && r.worker == c.worker)
    case Confirming(c) => r == c.(state := RUNNING)
    case Rejected(c) => r == Record(WAITING_FOR_CAPACITY, None)
    case Broken(c) => r == c.(state := FAILED)
    case Cleaning(c) => !c.state.Terminal() && r == c.(state := STOPPED)
    case GivingUp(c) => r == c.(state := FAILED)
    case Stopping(c, _) => r == c.(state := if c.state in {RUNNING, CREATING} then STOPPING else STOPPED)
    case Deleting(c, final) => r == c.(state := final) || r == c.(state := LOST)
    case Comparing(c) => r.worker == c.worker && r.state in {LOST, EXPIRED, STOPPED, FAILED}
    case Losing(c) => r == c.(state := LOST)
    case Recovering(c) => r == c.(state := FAILED) || (c.state == CREATING && r == c.(state := RUNNING))
  }

  /** Where the coroutine is suspended after that write; `None` when it is finished. */
  predicate Continues(t: Task, r: Record, next: Option<Task>) {
    match t
    case Deciding(_) => next == Some(if r.state == CREATING then Calling(r) else Placing(r))
    case Rejected(_) => next == Some(Placing(r))
    case Stopping(c, final) => next == if r.state == STOPPING then Some(Deleting(r, final)) else None
    case _ => next == None
  }

  datatype Move =
    | Start(id: int, task: Task)                      // a coroutine reads the record and is suspended
    | Turn(id: int, next: Option<Task>)               // a task goes on without writing
    | Write(id: int, r: Record, next: Option<Task>)   // a task writes its copy back

  /** A coroutine may start on what it has just read. Recovery is awaited before anything else starts. */
  predicate MayStart(s: System, t: Task) {
    && t.copy == s.store
    && (forall id :: id in s.tasks ==> !s.tasks[id].Recovering?)
    && match t
       case Placing(c) => c.state == PENDING && c.worker.None?
       case Stopping(c, final) => !c.state.Terminal() && final in {STOPPED, EXPIRED}
       case Comparing(c) => c.state == RUNNING
       case Losing(c) => !c.state.Terminal() && c.worker.Some?
       case Recovering(c) => !c.state.Terminal() && s.tasks == map[]
       case _ => false
  }

  /** Going on without a write: any task may end or be cancelled, a placement that is cut short re-reads the record
      and gives up unless it has ended, and the create call has several outcomes. Placement goes on only when it finds
      a record that has not ended, and reports a sandbox running only when it finds it still being created; between
      that look and the write behind it the record may change. */
  predicate MayTurn(s: System, t: Task, next: Option<Task>) {
    || next == None
    || ((t.Placing? || t.Deciding? || t.Calling? || t.Confirming? || t.Rejected? || t.Broken? || t.Cleaning?)
        && !s.store.state.Terminal() && next == Some(GivingUp(s.store)))
    || (t.Placing? && !s.store.state.Terminal() && next == Some(Deciding(t.copy)))
    || (t.Deciding? && next == Some(Placing(t.copy)))
    || (t.Calling? && next in {Some(Rejected(t.copy)), Some(Broken(t.copy))})
    || (t.Calling? && next == Some(if s.store.state == CREATING then Confirming(t.copy) else Cleaning(s.store)))
  }

  predicate Can(s: System, m: Move) {
    match m
    case Start(id, t) => id !in s.tasks && MayStart(s, t)
    case Turn(id, next) => id in s.tasks && MayTurn(s, s.tasks[id], next)
    case Write(id, r, next) =>
      id in s.tasks && Writes(s.tasks[id], r) && Continues(s.tasks[id], r, next)
  }

  function Go(s: System, id: int, next: Option<Task>): System {
    s.(tasks := if next.Some? then s.tasks[id := next.value] else s.tasks - {id})
  }

  function Do(s: System, m: Move): System {
    match m
    case Start(id, t) => s.(tasks := s.tasks[id := t])
    case Turn(id, next) => Go(s, id, next)
    case Write(id, r, next) => Go(s, id, next).(store := r)
  }

  /** Recovery is alone, so its copy is fresh. */
  ghost predicate RecoversAlone(s: System) {
    forall id :: id in s.tasks && s.tasks[id].Recovering? ==> s.tasks.Keys == {id} && s.tasks[id].copy == s.store
  }

  ghost predicate Inv(s: System) {
    Placed(s.store) && RecoversAlone(s) && forall id :: id in s.tasks ==> Believes(s.tasks[id])
  }

  /** From a copy a coroutine believes in, every write it may make is in the transition table and leaves the record
      placed. */
  lemma WritesAreLegal(t: Task, r: Record)
    requires Believes(t) && Writes(t, r)
    ensures Legal(t.copy.state, r.state) && Placed(r)
  {
  }

  lemma MoveKeepsInv(s: System, m: Move)
    requires Inv(s) && Can(s, m)
    ensures Inv(Do(s, m))
  {
    if m.Write? {
      WritesAreLegal(s.tasks[m.id], m.r);
    }
  }

  ghost predicate Runs(s: System, moves: seq<Move>, end: System)
    decreases |moves|
  {
    if moves == [] then s == end else Can(s, moves[0]) && Runs(Do(s, moves[0]), moves[1..], end)
  }

  lemma {:induction false} RunsKeepInv(s: System, moves: seq<Move>, end: System)
    requires Inv(s) && Runs(s, moves, end)
    ensures Inv(end)
    decreases |moves|
  {
    if moves != [] {
      MoveKeepsInv(s, moves[0]);
      RunsKeepInv(Do(s, moves[0]), moves[1..], end);
    }
  }

  /** No interleaving of placements, kills, expiries, inventory passes, worker losses and recovery ever raises a
      StateError, and the stored record is placed at every moment. */
  lemma NoStateError(r: Record, moves: seq<Move>, end: System, write: Move)
    requires Placed(r) && Runs(System(r, map[]), moves, end)
    requires write.Write? && Can(end, write)
    ensures Legal(end.tasks[write.id].copy.state, write.r.state)
    ensures Placed(end.store) && Placed(write.r)
  {
    RunsKeepInv(System(r, map[]), moves, end);
    WritesAreLegal(end.tasks[write.id], write.r);
  }

  /** The table guards copies, not the store: a write is a legal change of the stored record when the copy is fresh. */
  lemma FreshWritesAreLegal(s: System, m: Move)
    requires Inv(s) && Can(s, m) && m.Write? && s.tasks[m.id].copy == s.store
    ensures Legal(s.store.state, Do(s, m).store.state)
  {
    WritesAreLegal(s.tasks[m.id], m.r);
  }

  /** A write that brings an ended record back: a placement has looked at the record before it ended, a refused create
      goes back to waiting, or a kill or an expiry announces itself on a sandbox it believes placed. */
  predicate Revives(t: Task) {
    t.Deciding? || t.Confirming? || t.Rejected? || (t.Stopping? && t.copy.state in {RUNNING, CREATING})
  }

  /** With a stale copy it may not be. A write to a record that has ended is a legal change of it only when it writes the
      same label again, and it makes the record live again exactly for these tasks. */
  lemma EndedRecordRevivesIff(s: System, m: Move)
    requires Inv(s) && Can(s, m) && m.Write? && s.store.state.Terminal()
    ensures !Do(s, m).store.state.Terminal() <==> Revives(s.tasks[m.id])
    ensures Legal(s.store.state, Do(s, m).store.state) <==> m.r.state == s.store.state
    ensures s.tasks[m.id].copy != s.store
  {
    assert Believes(s.tasks[m.id]);
  }

  lemma {:induction false} RunsSnoc(s: System, moves: seq<Move>, mid: System, m: Move)
    requires Runs(s, moves, mid) && Can(mid, m)
    ensures Runs(s, moves + [m], Do(mid, m))
    decreases |moves|
  {
    if moves == [] {
      assert [m][1..] == [] && moves + [m] == [m];
    } else {
      RunsSnoc(Do(s, moves[0]), moves[1..], mid, m);
      assert (moves + [m])[1..] == moves[1..] + [m];
    }
  }

  lemma PlacedRun(w: string) returns (moves: seq<Move>, end: System)
    ensures Runs(System(Record(PENDING, None), map[]), moves, end)
    ensures end == System(Record(CREATING, Some(w)), map[0 := Calling(Record(CREATING, Some(w)))])
  {
    var pending, creating := Record(PENDING, None), Record(CREATING, Some(w));
    var s := System(pending, map[]);
    var m0, m1 := Start(0, Placing(pending)), Turn(0, Some(Deciding(pending)));
    var m2 := Write(0, creating, Some(Calling(creating)));
    var s1 := Do(s, m0);
    var s2 := Do(s1, m1);
    end := Do(s2, m2);
    RunsSnoc(s, [], s, m0);
    RunsSnoc(s, [] + [m0], s1, m1);
    RunsSnoc(s, [] + [m0] + [m1], s2, m2);
    moves := [] + [m0] + [m1] + [m2];
  }

  /** A sandbox is placed, and killed while the worker is still busy with the create. */
  lemma KilledDuringCreate(w: string) returns (moves: seq<Move>, end: System)
    ensures Runs(System(Record(PENDING, None), map[]), moves, end)
    ensures end == System(Record(STOPPED, Some(w)), map[0 := Calling(Record(CREATING, Some(w)))])
  {
    var placed, s := PlacedRun(w);
    var stopping, stopped := Record(STOPPING, Some(w)), Record(STOPPED, Some(w));
    var start := System(Record(PENDING, None), map[]);
    var m0, m1 := Start(1, Stopping(s.store, STOPPED)), Write(1, stopping, Some(Deleting(stopping, STOPPED)));
    var m2 := Write(1, stopped, None);
    var s1 := Do(s, m0);
    var s2 := Do(s1, m1);
    end := Do(s2, m2);
    RunsSnoc(start, placed, s, m0);
    RunsSnoc(start, placed + [m0], s1, m1);
    RunsSnoc(start, placed + [m0] + [m1], s2, m2);
    moves := placed + [m0] + [m1] + [m2];
    assert end.tasks == s.tasks;
  }

  /** A killed sandbox comes back to life: the worker refuses the create after the kill has ended the record, the
      placement writes its own copy back as waiting, and places the sandbox on another worker. */
  lemma KilledSandboxMayRevive(w: string, v: string)
    returns (before: seq<Move>, killed: System, after: seq<Move>, end: System)
    ensures Runs(System(Record(PENDING, None), map[]), before, killed) && killed.store == Record(STOPPED, Some(w))
    ensures Runs(killed, after, end) && end.store == Record(CREATING, Some(v))
    ensures after != [] && after[0] == Turn(0, Some(Rejected(Record(CREATING, Some(w)))))
  {
    before, killed := KilledDuringCreate(w);
    var creating, again := Record(CREATING, Some(w)), Record(CREATING, Some(v));
    var waiting := Record(WAITING_FOR_CAPACITY, None);
    var m0, m1 := Turn(0, Some(Rejected(creating))), Write(0, waiting, Some(Placing(waiting)));
    var m2, m3 := Turn(0, Some(Deciding(waiting))), Write(0, again, Some(Calling(again)));
    var s1 := Do(killed, m0);
    var s2 := Do(s1, m1);
    var s3 := Do(s2, m2);
    end := Do(s3, m3);
    RunsSnoc(killed, [], killed, m0);
    RunsSnoc(killed, [] + [m0], s1, m1);
    RunsSnoc(killed, [] + [m0] + [m1], s2, m2);
    RunsSnoc(killed, [] + [m0] + [m1] + [m2], s3, m3);
    after := [] + [m0] + [m1] + [m2] + [m3];
  }

  /** A kill that falls between a placement's look at the record and its write. */
  lemma KilledWhileDeciding() returns (moves: seq<Move>, end: System)
    ensures Runs(System(Record(PENDING, None), map[]), moves, end)
    ensures end == System(Record(STOPPED, None), map[0 := Deciding(Record(PENDING, None))])
  {
    var pending, stopped := Record(PENDING, None), Record(STOPPED, None);
    var s := System(pending, map[]);
    var m0, m1 := Start(0, Placing(pending)), Turn(0, Some(Deciding(pending)));
    var m2, m3 := Start(1, Stopping(pending, STOPPED)), Write(1, stopped, None);
    var s1 := Do(s, m0);
    var s2 := Do(s1, m1);
    var s3 := Do(s2, m2);
    end := Do(s3, m3);
    RunsSnoc(s, [], s, m0);
    RunsSnoc(s, [] + [m0], s1, m1);
    RunsSnoc(s, [] + [m0] + [m1], s2, m2);
    RunsSnoc(s, [] + [m0] + [m1] + [m2], s3, m3);
    moves := [] + [m0] + [m1] + [m2] + [m3];
    assert end.tasks == map[0 := Deciding(pending)];
  }

  /** It is undone: the kill has finished and the record has ended, and then the sandbox is placed and runs. */
  lemma OverlookedKillIsUndone(w: string)
    returns (before: seq<Move>, killed: System, after: seq<Move>, end: System)
    ensures Runs(System(Record(PENDING, None), map[]), before, killed) && killed.store == Record(STOPPED, None)
    ensures Runs(killed, after, end) && end == System(Record(RUNNING, Some(w)), map[])
  {
    before, killed := KilledWhileDeciding();
    var creating, running := Record(CREATING, Some(w)), Record(RUNNING, Some(w));
    var m0, m1 := Write(0, creating, Some(Calling(creating))), Turn(0, Some(Confirming(creating)));
    var m2 := Write(0, running, None);
    var s1 := Do(killed, m0);
    var s2 := Do(s1, m1);
    end := Do(s2, m2);
    RunsSnoc(killed, [], killed, m0);
    RunsSnoc(killed, [] + [m0], s1, m1);
    RunsSnoc(killed, [] + [m0] + [m1], s2, m2);
    after := [] + [m0] + [m1] + [m2];
  }

  lemma ExpiryAnnounced(w: string) returns (moves: seq<Move>, end: System)
    ensures Runs(System(Record(RUNNING, Some(w)), map[]), moves, end)
    ensures end == System(Record(STOPPING, Some(w)), map[0 := Deleting(Record(STOPPING, Some(w)), EXPIRED)])
  {
    var running, stopping := Record(RUNNING, Some(w)), Record(STOPPING, Some(w));
    var m0 := Start(0, Stopping(running, EXPIRED));
    var m1 := Write(0, stopping, Some(Deleting(stopping, EXPIRED)));
    var s := System(running, map[]);
    var s1 := Do(s, m0);
    end := Do(s1, m1);
    RunsSnoc(s, [], s, m0);
    RunsSnoc(s, [] + [m0], s1, m1);
    moves := [] + [m0] + [m1];
  }

  /** And a label can change to another: a kill and an expiry of the same sandbox each finish it, and the second label
      replaces the first without any StateError. */
  lemma TerminalLabelMayChange(w: string) returns (moves: seq<Move>, end: System, last: Move)
    ensures Runs(System(Record(RUNNING, Some(w)), map[]), moves, end) && Can(end, last)
    ensures end.store.state == STOPPED && Do(end, last).store.state == EXPIRED && !Legal(STOPPED, EXPIRED)
  {
    var announced, s := ExpiryAnnounced(w);
    var start := System(Record(RUNNING, Some(w)), map[]);
    var stopped, expired := Record(STOPPED, Some(w)), Record(EXPIRED, Some(w));
    var m0, m1 := Start(1, Stopping(s.store, STOPPED)), Write(1, stopped, None);
    var s1 := Do(s, m0);
    end, last := Do(s1, m1), Write(0, expired, None);
    RunsSnoc(start, announced, s, m0);
    RunsSnoc(start, announced + [m0], s1, m1);
    moves := announced + [m0] + [m1];
  }

  /** `cleanup` marks an active sandbox LOST when its worker is gone or it has none. On a placed record that raises a
      StateError exactly when the sandbox has no worker. */
  lemma CleanupRaisesIff(r: Record)
    requires Placed(r) && !r.state.Terminal()
    ensures !Legal(r.state, LOST) <==> r.worker.None?
  {
  }
}
