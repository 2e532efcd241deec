/** Scaling decisions (scheduler/scaler.py) and the runs the control plane makes of them (control/service.py). */
module Scaler {
  import opened Resources
  import opened WorkerStates

  /** A pool's scaling settings, as validated when the pool is built. */
  datatype Pool = Pool(minWorkers: int, maxWorkers: int, idleTtl: int) {
    predicate Valid() {
      0 <= minWorkers <= maxWorkers && 1 <= maxWorkers && 0 <= idleTtl
    }
  }

  datatype Decision = NONE | SCALE_UP | WAIT

  /** The groups of workers that scaling counts. */
  datatype Kind = Counted | Pending | Effective | Healthy

  predicate Is(kind: Kind, w: WorkerRecord) {
    match kind
    case Counted => w.state.CountsTowardMax()
    case Pending => w.state.Pending()
    case Effective => w.state.CountsTowardMax() && w.state != TERMINATING && !w.terminateWhenEmpty
    case Healthy => w.state in {HEALTHY, DRAINING} || w.state.Pending()
  }

  function Count(kind: Kind, ws: seq<WorkerRecord>): nat {
    if ws == [] then 0 else (if Is(kind, ws[0]) then 1 else 0) + Count(kind, ws[1..])
  }

  function DecideScaleUp(pool: Pool, ws: seq<WorkerRecord>): Decision {
    if Count(Pending, ws) > 0 then WAIT
    else if Count(Counted, ws) < pool.maxWorkers then SCALE_UP
    else WAIT
  }

  /** Where the workers of a kind stand in the list. */
  function Places(kind: Kind, ws: seq<WorkerRecord>): set<int> {
    set i | 0 <= i < |ws| && Is(kind, ws[i])
  }

  lemma {:induction false} CountIs(kind: Kind, ws: seq<WorkerRecord>)
    ensures Count(kind, ws) == |Places(kind, ws)|
    decreases |ws|
  {
    if ws == [] {
      assert Places(kind, ws) == {};
    } else {
      var n := |ws| - 1;
      CountIs(kind, ws[..n]);
      CountAppend(kind, ws[..n], [ws[n]]);
      assert ws == ws[..n] + [ws[n]];
      PlacesSnoc(kind, ws, n);
      hide Is, Places;
    }
  }

  lemma PlacesSnoc(kind: Kind, ws: seq<WorkerRecord>, n: nat)
    requires n + 1 == |ws|
    ensures Places(kind, ws) == Places(kind, ws[..n]) + (if Is(kind, ws[n]) then {n} else {})
    ensures n !in Places(kind, ws[..n])
  {
    hide Is;
  }

  /** Placement has a worker started exactly when none is on its way and fewer than the maximum are neither terminated
      nor lost. */
  lemma ScaleUpIff(pool: Pool, ws: seq<WorkerRecord>)
    ensures DecideScaleUp(pool, ws) == SCALE_UP <==>
              && (forall w :: w in ws ==> w.state !in {PROVISIONING, BOOTSTRAPPING, CONNECTING})
              && Alive(ws) < pool.maxWorkers
  {
    CountsAre(ws);
    SomeIff(Pending, ws);
  }

  lemma {:induction false} SomeIff(kind: Kind, ws: seq<WorkerRecord>)
    ensures Count(kind, ws) == 0 <==> forall w :: w in ws ==> !Is(kind, w)
    decreases |ws|
  {
    if ws != [] {
      SomeIff(kind, ws[1..]);
      assert ws == [ws[0]] + ws[1..];
    }
  }

  function ReplacementsNeeded(pool: Pool, ws: seq<WorkerRecord>): nat {
    var missing := pool.minWorkers - Count(Effective, ws);
    if missing > 0 then missing else 0
  }

  /** How many workers `pool_up` starts, with or without an explicit number. */
  function PoolUpNeeded(pool: Pool, ws: seq<WorkerRecord>, asked: Option<int>): nat {
    var current := Count(Counted, ws);
    var target := match asked
      case Some(n) => if n < pool.maxWorkers then n else pool.maxWorkers
      case None => if current == 0 && pool.minWorkers < 1 then 1 else pool.minWorkers;
    if target - current > 0 then target - current else 0
  }

  // ---- runs of scaling decisions ----

  /** What reads the list of workers and decides how many to start. */
  datatype Request =
    | Place                      // placement found no worker and asks whether to scale up
    | PoolUp(asked: Option<int>)
    | Replace                    // the reconciler tops the pool up to its minimum

  /** How many workers the request starts, by the list it has read. */
  function Needed(pool: Pool, ws: seq<WorkerRecord>, r: Request): nat {
    match r
    case Place => if DecideScaleUp(pool, ws) == SCALE_UP then 1 else 0
    case PoolUp(asked) => PoolUpNeeded(pool, ws, asked)
    case Replace => ReplacementsNeeded(pool, ws)
  }

  /** The pool while requests are under way: each has read the list, and is suspended before every worker it still has
      to start. */
  datatype Scaling = Scaling(ws: seq<WorkerRecord>, jobs: seq<nat>)

  datatype Step =
    | Decide(request: Request)                      // reads the list as it is now
    | Launch(job: nat)                              // starts one worker
    | Abandon(job: nat)                             // is cancelled, or the start raises
    | Change(i: nat, write: WorkerWrite, mark: bool) // a worker's state is written; `mark` sets terminate_when_empty

  function NewWorker(id: string): WorkerRecord {
    WorkerRecord(id, PROVISIONING, false, false, 0, None, None)
  }

  function Changed(w: WorkerRecord, write: WorkerWrite, mark: bool): WorkerRecord {
    w.(state := Target(write), terminateWhenEmpty := w.terminateWhenEmpty || mark)
  }

  predicate Can(s: Scaling, step: Step) {
    match step
    case Decide(_) => true
    case Launch(j) => j < |s.jobs| && s.jobs[j] > 0
    case Abandon(j) => j < |s.jobs|
    case Change(i, write, _) =>
      && i < |s.ws| && Reaches(write, s.ws[i].state)
      && (Target(write) == s.ws[i].state || Target(write) in s.ws[i].state.Successors())
  }

  function Do(pool: Pool, s: Scaling, step: Step): Scaling
    requires Can(s, step)
  {
    match step
    case Decide(request) => s.(jobs := s.jobs + [Needed(pool, s.ws, request)])
    case Launch(j) => Scaling(s.ws + [NewWorker("wrk")], s.jobs[j := s.jobs[j] - 1])
    case Abandon(j) => s.(jobs := s.jobs[j := 0])
    case Change(i, write, mark) => s.(ws := s.ws[i := Changed(s.ws[i], write, mark)])
  }

  ghost predicate Runs(pool: Pool, s: Scaling, steps: seq<Step>, end: Scaling)
    decreases |steps|
  {
    if steps == [] then s == end else Can(s, steps[0]) && Runs(pool, Do(pool, s, steps[0]), steps[1..], end)
  }

  lemma {:induction false} CountAppend(kind: Kind, a: seq<WorkerRecord>, b: seq<WorkerRecord>)
    ensures Count(kind, a + b) == Count(kind, a) + Count(kind, b)
    decreases |a|
  {
    if a == [] {
      assert a + b == b;
    } else {
      CountAppend(kind, a[1..], b);
      assert (a + b)[1..] == a[1..] + b;
    }
  }

  lemma CountUpdate(kind: Kind, ws: seq<WorkerRecord>, i: nat, w: WorkerRecord)
    requires i < |ws|
    ensures Count(kind, ws[i := w]) == Count(kind, ws) - (if Is(kind, ws[i]) then 1 else 0) + (if Is(kind, w) then 1 else 0)
  {
    assert ws == ws[..i] + ([ws[i]] + ws[i + 1..]);
    assert ws[i := w] == ws[..i] + ([w] + ws[i + 1..]);
    CountAppend(kind, ws[..i], [ws[i]] + ws[i + 1..]);
    CountAppend(kind, ws[..i], [w] + ws[i + 1..]);
  }

  lemma {:induction false} EffectiveAreCounted(ws: seq<WorkerRecord>)
    ensures Count(Effective, ws) <= Count(Counted, ws)
  {
    if ws != [] {
      EffectiveAreCounted(ws[1..]);
    }
  }

  /** No state write turns a worker that is on its way out back into an effective one, or an established one pending. */
  lemma ChangeNeverRevives(w: WorkerRecord, write: WorkerWrite, mark: bool)
    requires Reaches(write, w.state) && (Target(write) == w.state || Target(write) in w.state.Successors())
    ensures Is(Effective, Changed(w, write, mark)) ==> Is(Effective, w)
    ensures Is(Counted, Changed(w, write, mark)) ==> Is(Counted, w)
    ensures Is(Pending, Changed(w, write, mark)) ==> Is(Pending, w)
  {
  }

  // ---- what is started and what still will be ----

  /** The workers that requests under way still have to start. */
  function Outstanding(jobs: seq<nat>): nat {
    if jobs == [] then 0 else jobs[0] + Outstanding(jobs[1..])
  }

  lemma {:induction false} OutstandingAppend(a: seq<nat>, b: seq<nat>)
    ensures Outstanding(a + b) == Outstanding(a) + Outstanding(b)
    decreases |a|
  {
    if a == [] {
      assert a + b == b;
    } else {
      OutstandingAppend(a[1..], b);
      assert (a + b)[1..] == a[1..] + b;
    }
  }

  lemma OutstandingUpdate(jobs: seq<nat>, j: nat, n: nat)
    requires j < |jobs|
    ensures Outstanding(jobs[j := n]) == Outstanding(jobs) - jobs[j] + n
  {
    assert jobs == jobs[..j] + ([jobs[j]] + jobs[j + 1..]);
    assert jobs[j := n] == jobs[..j] + ([n] + jobs[j + 1..]);
    OutstandingAppend(jobs[..j], [jobs[j]] + jobs[j + 1..]);
    OutstandingAppend(jobs[..j], [n] + jobs[j + 1..]);
  }

  /** Workers of a kind, those about to be started included; a new worker is of every kind. */
  function Committed(kind: Kind, s: Scaling): nat {
    Count(kind, s.ws) + Outstanding(s.jobs)
  }

  /** Only a decision commits to more, and to exactly what it needs. */
  lemma StepCommits(kind: Kind, pool: Pool, s: Scaling, step: Step)
    requires Can(s, step) && kind != Healthy
    ensures var n := Committed(kind, Do(pool, s, step));
            if step.Decide? then n == Committed(kind, s) + Needed(pool, s.ws, step.request) else n <= Committed(kind, s)
    ensures step.Launch? ==> Committed(kind, Do(pool, s, step)) == Committed(kind, s)
  {
    match step
    case Decide(request) => OutstandingAppend(s.jobs, [Needed(pool, s.ws, request)]);
    case Launch(j) =>
      CountAppend(kind, s.ws, [NewWorker("wrk")]);
      OutstandingUpdate(s.jobs, j, s.jobs[j] - 1);
    case Abandon(j) => OutstandingUpdate(s.jobs, j, 0);
    case Change(i, write, mark) =>
      ChangeNeverRevives(s.ws[i], write, mark);
      CountUpdate(kind, s.ws, i, Changed(s.ws[i], write, mark));
  }

  // ---- when a bound holds ----

  predicate Undecided(steps: seq<Step>) {
    forall step :: step in steps ==> !step.Decide?
  }

  /** Without any further decision, more than `max_workers` workers of the kind can come about. */
  ghost predicate AtRisk(kind: Kind, pool: Pool, s: Scaling) {
    exists steps, end :: Undecided(steps) && Runs(pool, s, steps, end) && Count(kind, end.ws) > pool.maxWorkers
  }

  lemma {:induction false} UndecidedCommits(kind: Kind, pool: Pool, s: Scaling, steps: seq<Step>, end: Scaling)
    requires Undecided(steps) && Runs(pool, s, steps, end) && kind != Healthy
    ensures Committed(kind, end) <= Committed(kind, s)
    decreases |steps|
  {
    if steps != [] {
      StepCommits(kind, pool, s, steps[0]);
      UndecidedCommits(kind, pool, Do(pool, s, steps[0]), steps[1..], end);
    }
  }

  lemma {:induction false} SomeJob(jobs: seq<nat>) returns (j: nat)
    requires Outstanding(jobs) > 0
    ensures j < |jobs| && jobs[j] > 0
  {
    if jobs[0] > 0 {
      j := 0;
    } else {
      var i := SomeJob(jobs[1..]);
      j := i + 1;
    }
  }

  /** All that is outstanding is started, and nothing else happens. */
  lemma {:induction false} LaunchAll(kind: Kind, pool: Pool, s: Scaling) returns (steps: seq<Step>, end: Scaling)
    requires kind != Healthy
    ensures Undecided(steps) && Runs(pool, s, steps, end) && Count(kind, end.ws) == Committed(kind, s)
    decreases Outstanding(s.jobs)
  {
    if Outstanding(s.jobs) == 0 {
      steps, end := [], s;
    } else {
      var j := SomeJob(s.jobs);
      StepCommits(kind, pool, s, Launch(j));
      OutstandingUpdate(s.jobs, j, s.jobs[j] - 1);
      var rest;
      rest, end := LaunchAll(kind, pool, Do(pool, s, Launch(j)));
      steps := [Launch(j)] + rest;
      assert steps[1..] == rest;
    }
  }

  /** That is exactly when what is committed exceeds it. */
  lemma AtRiskIff(kind: Kind, pool: Pool, s: Scaling)
    requires kind != Healthy
    ensures AtRisk(kind, pool, s) <==> Committed(kind, s) > pool.maxWorkers
  {
    if AtRisk(kind, pool, s) {
      var steps, end :| Undecided(steps) && Runs(pool, s, steps, end) && Count(kind, end.ws) > pool.maxWorkers;
      UndecidedCommits(kind, pool, s, steps, end);
    }
    var steps, end := LaunchAll(kind, pool, s);
    if Committed(kind, s) > pool.maxWorkers {
      assert Undecided(steps) && Runs(pool, s, steps, end) && Count(kind, end.ws) > pool.maxWorkers;
    }
  }

  /** What the request starts fits beside the workers it has read and what others are still about to start. */
  predicate HasRoom(kind: Kind, pool: Pool, s: Scaling, r: Request) {
    Committed(kind, s) + Needed(pool, s.ws, r) <= pool.maxWorkers
  }

  ghost predicate NeverAtRisk(kind: Kind, pool: Pool, s: Scaling, steps: seq<Step>)
    decreases |steps|
  {
    && !AtRisk(kind, pool, s)
    && (steps != [] && Can(s, steps[0]) ==> NeverAtRisk(kind, pool, Do(pool, s, steps[0]), steps[1..]))
  }

  ghost predicate AlwaysRoom(kind: Kind, pool: Pool, s: Scaling, steps: seq<Step>)
    decreases |steps|
  {
    steps != [] && Can(s, steps[0]) ==>
      && (steps[0].Decide? ==> HasRoom(kind, pool, s, steps[0].request))
      && AlwaysRoom(kind, pool, Do(pool, s, steps[0]), steps[1..])
  }

  /** However requests interleave between reading the list and each start: the maximum is never at risk if and only if
      every decision of the run finds room for what it starts. Both for the workers that are not on their way out and
      for all that still run. */
  lemma {:induction false} MaximumIsSafeIff(kind: Kind, pool: Pool, s: Scaling, steps: seq<Step>, end: Scaling)
    requires kind in {Effective, Counted} && Runs(pool, s, steps, end) && !AtRisk(kind, pool, s)
    ensures NeverAtRisk(kind, pool, s, steps) <==> AlwaysRoom(kind, pool, s, steps)
    ensures AlwaysRoom(kind, pool, s, steps) ==> Count(kind, end.ws) <= pool.maxWorkers
    decreases |steps|
  {
    AtRiskIff(kind, pool, s);
    hide AtRisk;
    if steps != [] {
      var next := Do(pool, s, steps[0]);
      StepCommits(kind, pool, s, steps[0]);
      AtRiskIff(kind, pool, next);
      hide Do, Can, Committed;
      if Committed(kind, next) <= pool.maxWorkers {
        MaximumIsSafeIff(kind, pool, next, steps[1..], end);
      }
    }
  }

  // ---- one request at a time ----

  /** Nobody decides while another still has workers to start. */
  ghost predicate Serial(pool: Pool, s: Scaling, steps: seq<Step>)
    decreases |steps|
  {
    steps != [] && Can(s, steps[0]) ==>
      (steps[0].Decide? ==> Outstanding(s.jobs) == 0) && Serial(pool, Do(pool, s, steps[0]), steps[1..])
  }

  /** A request that is alone has room among the workers that are not on their way out. */
  lemma AloneHasRoom(pool: Pool, s: Scaling, r: Request)
    requires pool.Valid() && Outstanding(s.jobs) == 0 && Committed(Effective, s) <= pool.maxWorkers
    ensures HasRoom(Effective, pool, s, r)
  {
    EffectiveAreCounted(s.ws);
  }

  /** One at a time, placement scale-ups, `pool_up` and replacements never take the workers that are not on their way
      out above `max_workers`, whatever else happens to workers in between. */
  lemma {:induction false} NeverAboveMax(pool: Pool, s: Scaling, steps: seq<Step>, end: Scaling)
    requires pool.Valid() && Runs(pool, s, steps, end) && Serial(pool, s, steps)
    requires Committed(Effective, s) <= pool.maxWorkers
    ensures Committed(Effective, end) <= pool.maxWorkers
    decreases |steps|
  {
    if steps != [] {
      if steps[0].Decide? {
        AloneHasRoom(pool, s, steps[0].request);
      }
      StepCommits(Effective, pool, s, steps[0]);
      NeverAboveMax(pool, Do(pool, s, steps[0]), steps[1..], end);
    }
  }

  /** Placement decides and starts under the pool's lock, and shares a worker that is on its way: on its own it never has
      two of them. */
  lemma {:induction false} PlacementSharesPending(pool: Pool, s: Scaling, steps: seq<Step>, end: Scaling)
    requires Runs(pool, s, steps, end) && Serial(pool, s, steps) && Committed(Pending, s) <= 1
    requires forall step :: step in steps && step.Decide? ==> step.request == Place
    ensures Count(Pending, end.ws) <= Committed(Pending, end) <= 1
    decreases |steps|
  {
    if steps != [] {
      assert steps == [steps[0]] + steps[1..];
      StepCommits(Pending, pool, s, steps[0]);
      hide Can;
      PlacementSharesPending(pool, Do(pool, s, steps[0]), steps[1..], end);
    }
  }

  // ---- what a request reaches when nothing disturbs it ----

  /** The workers that are neither terminated nor lost. */
  ghost function Alive(ws: seq<WorkerRecord>): nat {
    |set i | 0 <= i < |ws| && ws[i].state !in {TERMINATED, WorkerState.LOST}|
  }

  /** Of these, the ones that are not on their way out. */
  ghost function Staying(ws: seq<WorkerRecord>): nat {
    |set i | 0 <= i < |ws| && ws[i].state !in {TERMINATED, WorkerState.LOST, TERMINATING} && !ws[i].terminateWhenEmpty|
  }

  lemma CountsAre(ws: seq<WorkerRecord>)
    ensures Alive(ws) == Count(Counted, ws) && Staying(ws) == Count(Effective, ws)
  {
    CountIs(Counted, ws);
    CountIs(Effective, ws);
    assert (set i | 0 <= i < |ws| && ws[i].state !in {TERMINATED, WorkerState.LOST}) == Places(Counted, ws);
    assert (set i | 0 <= i < |ws| && ws[i].state !in {TERMINATED, WorkerState.LOST, TERMINATING}
                    && !ws[i].terminateWhenEmpty) == Places(Effective, ws);
  }

  /** The request reads the list, and everything it has decided is started. */
  ghost predicate Carried(pool: Pool, ws: seq<WorkerRecord>, r: Request, steps: seq<Step>, end: Scaling) {
    && Runs(pool, Scaling(ws, []), [Decide(r)] + steps, end)
    && (forall step :: step in steps ==> step.Launch?) && Outstanding(end.jobs) == 0
  }

  lemma {:induction false} LaunchesCommit(kind: Kind, pool: Pool, s: Scaling, steps: seq<Step>, end: Scaling)
    requires Runs(pool, s, steps, end) && kind != Healthy && forall step :: step in steps ==> step.Launch?
    ensures Committed(kind, end) == Committed(kind, s)
    decreases |steps|
  {
    if steps != [] {
      StepCommits(kind, pool, s, steps[0]);
      LaunchesCommit(kind, pool, Do(pool, s, steps[0]), steps[1..], end);
    }
  }

  lemma CarriedStarts(kind: Kind, pool: Pool, ws: seq<WorkerRecord>, r: Request, steps: seq<Step>, end: Scaling)
    requires Carried(pool, ws, r, steps, end) && kind != Healthy
    ensures Count(kind, end.ws) == Count(kind, ws) + Needed(pool, ws, r)
  {
    var s := Scaling(ws, []);
    assert ([Decide(r)] + steps)[1..] == steps;
    StepCommits(kind, pool, s, Decide(r));
    LaunchesCommit(kind, pool, Do(pool, s, Decide(r)), steps, end);
  }

  lemma {:induction false} LaunchesProvision(pool: Pool, s: Scaling, steps: seq<Step>, end: Scaling)
    requires Runs(pool, s, steps, end) && forall step :: step in steps ==> step.Launch?
    ensures s.ws <= end.ws
    ensures forall i :: |s.ws| <= i < |end.ws| ==>
              end.ws[i].state == PROVISIONING && !end.ws[i].draining && !end.ws[i].terminateWhenEmpty
    decreases |steps|
  {
    if steps != [] {
      LaunchesProvision(pool, Do(pool, s, steps[0]), steps[1..], end);
    }
  }

  /** What a request starts is new, on its way and unmarked, and no worker that was there is touched. */
  lemma StartedAreNew(pool: Pool, ws: seq<WorkerRecord>, r: Request, steps: seq<Step>, end: Scaling)
    requires Carried(pool, ws, r, steps, end)
    ensures ws <= end.ws
    ensures forall i :: |ws| <= i < |end.ws| ==>
              end.ws[i].state == PROVISIONING && !end.ws[i].draining && !end.ws[i].terminateWhenEmpty
  {
    assert ([Decide(r)] + steps)[1..] == steps;
    LaunchesProvision(pool, Do(pool, Scaling(ws, []), Decide(r)), steps, end);
  }

  /** An undisturbed `pool_up` leaves the pool with as many workers as asked for, within the maximum, or else with the
      minimum, and from an empty pool with at least one; it never takes any away. */
  lemma PoolUpReaches(pool: Pool, ws: seq<WorkerRecord>, asked: Option<int>, steps: seq<Step>, end: Scaling)
    requires Carried(pool, ws, PoolUp(asked), steps, end)
    ensures asked.Some? ==>
              Alive(end.ws) == Larger(Alive(ws), if asked.value < pool.maxWorkers then asked.value else pool.maxWorkers)
    ensures asked.None? && Alive(ws) > 0 ==> Alive(end.ws) == Larger(Alive(ws), pool.minWorkers)
    ensures asked.None? && Alive(ws) == 0 ==> Alive(end.ws) == Larger(1, pool.minWorkers)
  {
    CarriedStarts(Counted, pool, ws, PoolUp(asked), steps, end);
    CountsAre(ws);
    CountsAre(end.ws);
  }

  /** An undisturbed replacement brings the workers that are not on their way out up to the minimum. */
  lemma ReplacementReaches(pool: Pool, ws: seq<WorkerRecord>, steps: seq<Step>, end: Scaling)
    requires Carried(pool, ws, Replace, steps, end)
    ensures Staying(end.ws) == Larger(Staying(ws), pool.minWorkers)
  {
    CarriedStarts(Effective, pool, ws, Replace, steps, end);
    CountsAre(ws);
    CountsAre(end.ws);
  }

  /** An undisturbed placement starts one worker exactly when none is on its way and there is room for it. */
  lemma PlacementReaches(pool: Pool, ws: seq<WorkerRecord>, steps: seq<Step>, end: Scaling)
    requires Carried(pool, ws, Place, steps, end)
    ensures Alive(end.ws) == Alive(ws) + if (forall w :: w in ws ==> w.state !in {PROVISIONING, BOOTSTRAPPING, CONNECTING})
                                            && Alive(ws) < pool.maxWorkers then 1 else 0
  {
    CarriedStarts(Counted, pool, ws, Place, steps, end);
    CountsAre(ws);
    CountsAre(end.ws);
    ScaleUpIff(pool, ws);
  }

  // ---- overlapping requests ----

  /** Two requests read the same list, and then start what they have decided. */
  lemma TwoAtOnce(pool: Pool, ws: seq<WorkerRecord>, a: Request, b: Request) returns (steps: seq<Step>, end: Scaling)
    ensures Runs(pool, Scaling(ws, []), [Decide(a), Decide(b)] + steps, end) && Undecided(steps)
    ensures Count(Effective, end.ws) == Count(Effective, ws) + Needed(pool, ws, a) + Needed(pool, ws, b)
  {
    var s := Scaling(ws, []);
    var s1 := Do(pool, s, Decide(a));
    var s2 := Do(pool, s1, Decide(b));
    StepCommits(Effective, pool, s, Decide(a));
    StepCommits(Effective, pool, s1, Decide(b));
    steps, end := LaunchAll(Effective, pool, s2);
    hide Needed, Count, Do;
    var all := [Decide(a), Decide(b)] + steps;
    assert all[1..] == [Decide(b)] + steps && all[1..][1..] == steps;
    assert Runs(pool, s1, all[1..], end);
  }

  /** In every pool with a free place and nobody leaving, two overlapping `pool_up` to the maximum exceed it. */
  lemma OverlappingPoolUpsExceed(pool: Pool, ws: seq<WorkerRecord>) returns (steps: seq<Step>, end: Scaling)
    requires pool.Valid() && Count(Effective, ws) == Count(Counted, ws) < pool.maxWorkers
    ensures var up := Decide(PoolUp(Some(pool.maxWorkers)));
            Runs(pool, Scaling(ws, []), [up, up] + steps, end) && Undecided(steps)
    ensures Count(Effective, end.ws) > pool.maxWorkers
  {
    var up := PoolUp(Some(pool.maxWorkers));
    steps, end := TwoAtOnce(pool, ws, up, up);
  }

  /** In every pool of fixed size that is below it with nobody on the way, so does a replacement that is carried out
      after a placement's scale-up it has not seen. */
  lemma StaleReplacementExceeds(pool: Pool, ws: seq<WorkerRecord>) returns (steps: seq<Step>, end: Scaling)
    requires pool.Valid() && pool.minWorkers == pool.maxWorkers
    requires Count(Effective, ws) == Count(Counted, ws) < pool.maxWorkers && Count(Pending, ws) == 0
    ensures Runs(pool, Scaling(ws, []), [Decide(Replace), Decide(Place)] + steps, end) && Undecided(steps)
    ensures Count(Effective, end.ws) > pool.maxWorkers
  {
    steps, end := TwoAtOnce(pool, ws, Replace, Place);
  }

  // ---- the room at the read ----

  function Launched(steps: seq<Step>): nat {
    if steps == [] then 0 else (if steps[0].Launch? then 1 else 0) + Launched(steps[1..])
  }

  /** How many times a worker stopped being of the kind. */
  ghost function Left(kind: Kind, pool: Pool, s: Scaling, steps: seq<Step>): nat
    decreases |steps|
  {
    if steps == [] || !Can(s, steps[0]) then 0 else
      (if steps[0].Change? && Is(kind, s.ws[steps[0].i])
          && !Is(kind, Changed(s.ws[steps[0].i], steps[0].write, steps[0].mark)) then 1 else 0)
      + Left(kind, pool, Do(pool, s, steps[0]), steps[1..])
  }

  /** From the moment a request reads the list: the maximum holds at the end exactly when what has been started since,
      by itself and by everybody else, less those that left, fits the room it has read. */
  lemma StartsFitRoomIff(kind: Kind, pool: Pool, s: Scaling, steps: seq<Step>, end: Scaling)
    requires kind in {Effective, Counted} && Runs(pool, s, steps, end)
    ensures Count(kind, end.ws) <= pool.maxWorkers <==>
            Launched(steps) - Left(kind, pool, s, steps) <= pool.maxWorkers - Count(kind, s.ws)
  {
    CountsBalance(kind, pool, s, steps, end);
  }

  lemma {:induction false} CountsBalance(kind: Kind, pool: Pool, s: Scaling, steps: seq<Step>, end: Scaling)
    requires kind in {Effective, Counted} && Runs(pool, s, steps, end)
    ensures Count(kind, end.ws) + Left(kind, pool, s, steps) == Count(kind, s.ws) + Launched(steps)
    decreases |steps|
  {
    if steps != [] {
      match steps[0] {
        case Launch(_) => CountAppend(kind, s.ws, [NewWorker("wrk")]);
        case Change(i, write, mark) =>
          ChangeNeverRevives(s.ws[i], write, mark);
          CountUpdate(kind, s.ws, i, Changed(s.ws[i], write, mark));
        case _ =>
      }
      CountsBalance(kind, pool, Do(pool, s, steps[0]), steps[1..], end);
    }
  }

  /** `drain_worker`: the one writer that can clear the mark of a worker on its way out. */
  function Drained(w: WorkerRecord, mark: bool): WorkerRecord {
    w.(state := if w.state == HEALTHY then DRAINING else w.state, draining := true, terminateWhenEmpty := mark)
  }

  /** It keeps the bound except when it takes a worker back that was on its way out while the pool is full. */
  lemma DrainKeepsBoundIff(pool: Pool, ws: seq<WorkerRecord>, i: nat, mark: bool)
    requires i < |ws| && Count(Effective, ws) <= pool.maxWorkers
    ensures Count(Effective, ws[i := Drained(ws[i], mark)]) > pool.maxWorkers <==>
              && !mark && ws[i].terminateWhenEmpty && ws[i].state.CountsTowardMax() && ws[i].state != TERMINATING
              && Count(Effective, ws) == pool.maxWorkers
    ensures var w := Drained(ws[i], mark);
            && w.draining && w.terminateWhenEmpty == mark && w.state != HEALTHY
            && (w.state == ws[i].state || (ws[i].state == HEALTHY && w.state == DRAINING))
  {
    CountUpdate(Effective, ws, i, Drained(ws[i], mark));
  }

  // ---- machines that still run ----

  /** A replacement that counts a worker on its way out as gone, when there is no room for both. */
  predicate Overshoots(pool: Pool, ws: seq<WorkerRecord>, r: Request) {
    && r.Replace?
    && Count(Counted, ws) - Count(Effective, ws) + Larger(Count(Effective, ws), pool.minWorkers) > pool.maxWorkers
  }

  function Larger(a: int, b: int): int {
    if a < b then b else a
  }

  /** A request that is alone has room among the machines that are not known to be gone exactly when it is not such a
      replacement. */
  lemma AloneHasRoomIff(pool: Pool, s: Scaling, r: Request)
    requires pool.Valid() && Outstanding(s.jobs) == 0 && Count(Counted, s.ws) <= pool.maxWorkers
    ensures HasRoom(Counted, pool, s, r) <==> !Overshoots(pool, s.ws, r)
  {
    EffectiveAreCounted(s.ws);
  }

  /** No decision of the run is a replacement without room. */
  ghost predicate NeverOvershoots(pool: Pool, s: Scaling, steps: seq<Step>)
    decreases |steps|
  {
    steps != [] && Can(s, steps[0]) ==>
      && (steps[0].Decide? ==> !Overshoots(pool, s.ws, steps[0].request))
      && NeverOvershoots(pool, Do(pool, s, steps[0]), steps[1..])
  }

  /** One at a time, the requests never put the maximum at risk for the machines that still run exactly when no such
      replacement occurs. */
  lemma {:induction false} AlwaysWithinIff(pool: Pool, s: Scaling, steps: seq<Step>, end: Scaling)
    requires pool.Valid() && Runs(pool, s, steps, end) && Serial(pool, s, steps)
    requires Committed(Counted, s) <= pool.maxWorkers
    ensures NeverAtRisk(Counted, pool, s, steps) <==> NeverOvershoots(pool, s, steps)
    decreases |steps|
  {
    AtRiskIff(Counted, pool, s);
    hide AtRisk;
    if steps != [] {
      var next := Do(pool, s, steps[0]);
      StepCommits(Counted, pool, s, steps[0]);
      AtRiskIff(Counted, pool, next);
      if steps[0].Decide? {
        AloneHasRoomIff(pool, s, steps[0].request);
      }
      hide Do, Can, Needed, Overshoots;
      if Committed(Counted, next) <= pool.maxWorkers {
        AlwaysWithinIff(pool, next, steps[1..], end);
      }
    }
  }

  /** It happens: a draining worker is replaced before it is gone. */
  lemma CountedMayExceedMax() returns (pool: Pool, ws: seq<WorkerRecord>, steps: seq<Step>, end: Scaling)
    ensures pool.Valid() && Count(Counted, ws) <= pool.maxWorkers < Count(Counted, end.ws)
    ensures Runs(pool, Scaling(ws, []), [Decide(Replace)] + steps, end) && Undecided(steps)
  {
    pool, ws := Pool(1, 1, 0), [WorkerRecord("wrk", DRAINING, true, true, 0, None, None)];
    var s := Scaling(ws, []);
    StepCommits(Counted, pool, s, Decide(Replace));
    steps, end := LaunchAll(Counted, pool, Do(pool, s, Decide(Replace)));
    assert ([Decide(Replace)] + steps)[1..] == steps;
  }
}
