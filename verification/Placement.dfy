/** Two-level placement: the control plane schedules from its ledger, the worker admits from its reservation map. One
    worker is enough, because ledgers of different workers never touch each other. */
module Placement {
  import opened Resources
  import opened WorkerCapacity
  import opened WorkerProtocol
  import opened WorkerSafety
  import opened Ledger

  /** The worker, the control plane's ledger for it, and what the last report counted. */
  datatype System = System(w: State, l: WorkerLedger, snapped: map<string, Resources>)

  datatype Event =
    | Schedule(id: string, want: Resources) // reserve in the ledger and send the create
    | Work(step: Step)                      // any step of the worker; a create arrives only after it was sent
    | Confirm(id: string)                   // the worker's answer to a create has come back
    | Drop(id: string)                      // the sandbox is known to hold nothing on the worker
    | Refresh(report: Report)               // a health report, read and applied at once

  /** The report the worker's `snapshot` produces (WorkerCapacity.CapacityManager.Snapshot). */
  ghost predicate Faithful(r: Report, w: State) {
    && r.cpuAllocatable == w.limits.cpu && r.memAllocatable == w.limits.mem
    && Reported(r) == Total(HeldReal(w.res))
  }

  /** What the scheduler compares a request with: the reported limits and the pool's cap. */
  function LedgerLimits(sys: System): Limits {
    Limits(sys.l.report.cpuAllocatable, sys.l.report.memAllocatable, sys.w.limits.slots)
  }

  /** The worker's create coroutine for `id` has come and gone. */
  ghost predicate Answered(w: State, id: string) {
    id in w.sent && id !in w.creates
  }

  ghost predicate Can(sys: System, e: Event) {
    match e
    case Schedule(id, want) =>
      !IsWarm(id) && id !in sys.w.sent && id !in sys.l.pending && Room(sys.l, sys.w.limits.slots, want)
    case Work(step) =>
      Enabled(sys.w, step) && (step.CreateArrives? ==> step.id in sys.l.pending && sys.l.pending[step.id] == step.want)
    case Confirm(id) => id in sys.l.pending && Answered(sys.w, id)
    case Drop(id) => Answered(sys.w, id) && id !in sys.w.res
    case Refresh(report) => Faithful(report, sys.w)
  }

  ghost function Do(sys: System, e: Event): System
    requires Can(sys, e)
  {
    match e
    case Schedule(id, want) => sys.(l := Reserved(sys.l, id, want))
    case Work(step) => sys.(w := Apply(sys.w, step))
    case Confirm(id) => sys.(l := Confirmed(sys.l, id))
    case Drop(id) => sys.(l := Released(sys.l, id))
    case Refresh(report) => sys.(l := Updated(sys.l, report), snapped := HeldReal(sys.w.res))
  }

  // ---- the invariant ----

  /** What the worker holds for sandboxes, and what is still on its way there. */
  ghost function Demand(sys: System): map<string, Resources> {
    HeldReal(sys.w.res) + sys.l.pending
  }

  /** `k`'s amount is counted by the ledger. */
  ghost predicate Counted(sys: System, k: string, r: Resources) {
    || (k in sys.snapped && sys.snapped[k] == r)
    || (k in sys.l.pending && sys.l.pending[k] == r)
    || (k in sys.l.local && sys.l.local[k] == r)
  }

  /** The request a suspended create will still ask the worker for. */
  ghost predicate Wants(w: State, id: string, want: Resources) {
    id in w.creates && (w.creates[id] == Evicting(want) || (w.creates[id].Claiming? && w.creates[id].want == want))
  }

  ghost predicate Matched(sys: System, k: string) {
    && (k in HeldReal(sys.w.res) ==> Counted(sys, k, HeldReal(sys.w.res)[k]))
    && (k in sys.l.pending ==> !IsWarm(k) && (k in sys.w.res ==> sys.w.res[k].resources == sys.l.pending[k]))
    && (forall want :: Wants(sys.w, k, want) ==> k in sys.l.pending && sys.l.pending[k] == want)
  }

  ghost predicate Tallied(sys: System) {
    Reported(sys.l.report) == Total(sys.snapped)
  }

  ghost predicate Bounded(sys: System) {
    sys.w.limits.Covers(Total(Demand(sys)))
  }

  ghost predicate Inv(sys: System) {
    && Owned(sys.w)
    && sys.l.report.cpuAllocatable == sys.w.limits.cpu && sys.l.report.memAllocatable == sys.w.limits.mem
    && Tallied(sys)
    && (forall k :: Matched(sys, k))
    && Bounded(sys)
  }

  /** What `a` does not cover. */
  ghost function Rest(m: map<string, Resources>, a: map<string, Resources>): map<string, Resources> {
    map k | k in m && !(k in a && a[k] == m[k]) :: m[k]
  }

  lemma RestIsCovered(m: map<string, Resources>, a: map<string, Resources>, b: map<string, Resources>,
                      c: map<string, Resources>)
    requires forall k :: k in m ==> (k in a && a[k] == m[k]) || (k in b && b[k] == m[k]) || (k in c && c[k] == m[k])
    ensures Covered(m, a, Rest(m, a)) && Covered(Rest(m, a), b, c)
  {
  }

  lemma CoveredByThree(m: map<string, Resources>, a: map<string, Resources>, b: map<string, Resources>,
                       c: map<string, Resources>)
    requires forall k :: k in m ==> (k in a && a[k] == m[k]) || (k in b && b[k] == m[k]) || (k in c && c[k] == m[k])
    ensures Total(m).AtMost(Total(a).Plus(Total(b)).Plus(Total(c)))
  {
    hide Total, Covered, Rest;
    RestIsCovered(m, a, b, c);
    TotalCovered(m, a, Rest(m, a));
    TotalCovered(Rest(m, a), b, c);
    AtMostChain(Total(m), Total(a), Total(Rest(m, a)), Total(b), Total(c));
  }

  lemma AtMostChain(m: Amount, a: Amount, rest: Amount, b: Amount, c: Amount)
    requires m.AtMost(a.Plus(rest)) && rest.AtMost(b.Plus(c))
    ensures m.AtMost(a.Plus(b).Plus(c))
  {
  }

  /** The ledger never counts less than what the worker holds and has coming. */
  lemma LedgerCoversDemand(sys: System)
    requires Inv(sys)
    ensures Total(Demand(sys)).AtMost(Used(sys.l))
  {
    var d := Demand(sys);
    forall k | k in d
      ensures Counted(sys, k, d[k])
    {
      assert Matched(sys, k);
    }
    CoveredByThree(d, sys.snapped, sys.l.pending, sys.l.local);
  }

  lemma ScheduleFits(sys: System, id: string, want: Resources)
    requires Inv(sys) && Can(sys, Schedule(id, want))
    ensures id !in Demand(sys) && sys.w.limits.Covers(Total(Demand(sys)[id := want]))
  {
    assert Sound(sys.w, id);
    LedgerCoversDemand(sys);
    TotalAdd(Demand(sys), id, want);
    FitsThenCovers(sys.w.limits, Used(sys.l), Total(Demand(sys)), want);
  }

  lemma ScheduleDemands(sys: System, id: string, want: Resources)
    ensures Demand(sys.(l := Reserved(sys.l, id, want))) == Demand(sys)[id := want]
  {
  }

  lemma ScheduleKeepsMatched(sys: System, id: string, want: Resources, k: string)
    requires Inv(sys) && Can(sys, Schedule(id, want))
    ensures Matched(Do(sys, Schedule(id, want)), k)
  {
    assert Matched(sys, k) && Sound(sys.w, id);
  }

  lemma ScheduleKeepsInv(sys: System, id: string, want: Resources)
    requires Inv(sys) && Can(sys, Schedule(id, want))
    ensures Inv(Do(sys, Schedule(id, want)))
  {
    var sys' := Do(sys, Schedule(id, want));
    ScheduleFits(sys, id, want);
    ScheduleDemands(sys, id, want);
    forall k ensures Matched(sys', k) {
      ScheduleKeepsMatched(sys, id, want, k);
    }
  }

  lemma FitsThenCovers(limits: Limits, used: Amount, demand: Amount, want: Resources)
    requires limits.Fits(used, want) && demand.AtMost(used)
    ensures limits.Covers(demand.Plus(Unit(want)))
  {
  }

  lemma WorkKeepsMatched(sys: System, step: Step, k: string)
    requires Inv(sys) && Can(sys, Work(step))
    ensures Matched(Do(sys, Work(step)), k)
  {
    var sys' := Do(sys, Work(step));
    assert Matched(sys, k) && Sound(sys.w, k);
    WantsComeFromRequests(sys.w, step, k);
    if step.EvictEnds? && step.id == k {
      assert Wants(sys.w, k, sys.w.creates[k].want);
    }
    if k in HeldReal(sys'.w.res) {
      RealReservationsAreAsked(sys.w, step, k);
    }
    assert !IsWarm(k) && k in sys'.w.res ==> k in HeldReal(sys'.w.res);
  }

  /** A create in flight still asks for what it asked when it arrived. */
  lemma TryColdWants(w: State, id: string, want: Resources, evict: string)
    ensures TryCold(w, id, want, evict).creates in
              {w.creates[id := Booting], w.creates[id := Evicting(want)], w.creates - {id}}
  {
    hide CanReserve;
  }

  lemma ArriveWants(w: State, id: string, want: Resources, claim: Option<string>, evict: string)
    requires claim.Some? ==> claim.value in w.warm
    ensures var creates := Arrive(w, id, want, claim, evict).creates;
            || creates == w.creates || creates == w.creates - {id} || creates == w.creates[id := Booting]
            || creates == w.creates[id := Evicting(want)]
            || (claim.Some? && creates == w.creates[id := Claiming(claim.value, want)])
  {
    hide CanReserve, TryCold, SwapBack;
    var w1 := w.(sent := w.sent + {id});
    TryColdWants(w1, id, want, evict);
    if claim.Some? {
      SwapBackKeepsCreates(w1, claim.value);
      TryColdWants(SwapBack(w1, claim.value), id, want, evict);
    }
  }

  lemma SwapBackKeepsCreates(w: State, slot: string)
    requires slot in w.warm
    ensures SwapBack(w, slot).creates == w.creates
  {
  }

  lemma WantsComeFromRequests(w: State, step: Step, k: string)
    requires Enabled(w, step)
    ensures forall want :: Wants(Apply(w, step), k, want) ==>
              Wants(w, k, want) || (step.CreateArrives? && step.id == k && step.want == want)
  {
    match step
    case CreateArrives(id, want, claim, evict) => ArriveWants(w, id, want, claim, evict);
    case ClaimEnds(id, adopted) =>
    case EvictEnds(id, evict) =>
    case _ =>
  }

  lemma WorkKeepsInv(sys: System, step: Step)
    requires Inv(sys) && Can(sys, Work(step))
    ensures Inv(Do(sys, Work(step)))
  {
    var sys' := Do(sys, Work(step));
    StepKeepsOwned(sys.w, step);
    forall k ensures Matched(sys', k) {
      WorkKeepsMatched(sys, step, k);
    }
    WorkDemandsNoMore(sys, step);
    LessKeepsCovers(sys.w.limits, Demand(sys'), Demand(sys));
  }

  /** Admission moves demand from the wire to the worker; nothing the worker does raises it. */
  lemma WorkDemandsNoMore(sys: System, step: Step)
    requires Inv(sys) && Can(sys, Work(step))
    ensures SubMap(Demand(Do(sys, Work(step))), Demand(sys))
  {
    var sys' := Do(sys, Work(step));
    forall k | k in Demand(sys')
      ensures k in Demand(sys) && Demand(sys)[k] == Demand(sys')[k]
    {
      if k !in sys.l.pending {
        RealReservationsAreAsked(sys.w, step, k);
        assert Matched(sys, k);
        if step.EvictEnds? && step.id == k {
          assert Wants(sys.w, k, sys.w.creates[k].want);
        }
      }
    }
  }

  lemma BookkeepingKeepsMatched(sys: System, e: Event, k: string)
    requires Inv(sys) && Can(sys, e) && (e.Confirm? || e.Drop? || e.Refresh?)
    ensures Matched(Do(sys, e), k)
  {
    assert Matched(sys, k) && Sound(sys.w, k);
  }

  lemma BookkeepingDemandsNoMore(sys: System, e: Event)
    requires Inv(sys) && Can(sys, e) && (e.Confirm? || e.Drop? || e.Refresh?)
    ensures SubMap(Demand(Do(sys, e)), Demand(sys))
  {
    var sys' := Do(sys, e);
    forall k | k in Demand(sys')
      ensures k in Demand(sys) && Demand(sys)[k] == Demand(sys')[k]
    {
      assert Matched(sys, k);
    }
  }

  lemma BookkeepingKeepsInv(sys: System, e: Event)
    requires Inv(sys) && Can(sys, e) && (e.Confirm? || e.Drop? || e.Refresh?)
    ensures Inv(Do(sys, e))
  {
    var sys' := Do(sys, e);
    forall k ensures Matched(sys', k) {
      BookkeepingKeepsMatched(sys, e, k);
    }
    BookkeepingDemandsNoMore(sys, e);
    LessKeepsCovers(sys.w.limits, Demand(sys'), Demand(sys));
  }

  lemma EventKeepsInv(sys: System, e: Event)
    requires Inv(sys) && Can(sys, e)
    ensures Inv(Do(sys, e))
  {
    match e
    case Schedule(id, want) => ScheduleKeepsInv(sys, id, want);
    case Work(step) => WorkKeepsInv(sys, step);
    case _ => BookkeepingKeepsInv(sys, e);
  }

  // ---- over whole runs ----

  ghost predicate Runs(sys: System, events: seq<Event>, end: System)
    decreases |events|
  {
    if events == [] then sys == end else Can(sys, events[0]) && Runs(Do(sys, events[0]), events[1..], end)
  }

  /** A worker that has just been connected: its first report is in, nothing has been sent to it. */
  ghost predicate Connected(sys: System) {
    && Owned(sys.w) && Admissible(sys.w) && sys.w.creates == map[]
    && Faithful(sys.l.report, sys.w) && sys.l.pending == map[] && sys.l.local == map[]
    && sys.snapped == HeldReal(sys.w.res)
  }

  lemma ConnectedIsInv(sys: System)
    requires Connected(sys)
    ensures Inv(sys)
  {
    assert Demand(sys) == HeldReal(sys.w.res);
    LessKeepsCovers(sys.w.limits, HeldReal(sys.w.res), Held(sys.w.res));
  }

  lemma {:induction false} RunsKeepInv(sys: System, events: seq<Event>, end: System)
    requires Inv(sys) && Runs(sys, events, end)
    ensures Inv(end) && end.w.limits == sys.w.limits
    decreases |events|
  {
    if events != [] {
      EventKeepsInv(sys, events[0]);
      RunsKeepInv(Do(sys, events[0]), events[1..], end);
    }
  }

  /** In every reachable state the ledger counts at least what the worker really holds for sandboxes. */
  lemma LedgerCoversWorker(sys: System, events: seq<Event>, end: System)
    requires Connected(sys) && Runs(sys, events, end)
    ensures Total(HeldReal(end.w.res)).AtMost(Used(end.l))
  {
    ConnectedIsInv(sys);
    RunsKeepInv(sys, events, end);
    forall k | k in HeldReal(end.w.res)
      ensures k in Demand(end) && Demand(end)[k] == HeldReal(end.w.res)[k]
    {
      assert Matched(end, k);
    }
    TotalMonotone(HeldReal(end.w.res), Demand(end));
    LedgerCoversDemand(end);
  }

  /** What is demanded fits, so any create on its way fits beside the real allocation. */
  lemma PendingFits(sys: System, id: string)
    requires Inv(sys) && id in sys.l.pending && id !in sys.w.res
    ensures sys.w.limits.Fits(Total(HeldReal(sys.w.res)), sys.l.pending[id])
  {
    var held := HeldReal(sys.w.res);
    var want := sys.l.pending[id];
    TotalAdd(held, id, want);
    forall k | k in held[id := want]
      ensures k in Demand(sys) && Demand(sys)[k] == held[id := want][k]
    {
      assert Matched(sys, k);
    }
    TotalMonotone(held[id := want], Demand(sys));
    CoversThenFits(sys.w.limits, Total(held), want, Total(Demand(sys)));
  }

  lemma CoversThenFits(limits: Limits, used: Amount, want: Resources, demand: Amount)
    requires limits.Covers(demand) && used.Plus(Unit(want)).AtMost(demand)
    ensures limits.Fits(used, want)
  {
  }

  /** An open worker refuses only when it has no slot left to evict and the request does not fit. */
  lemma RefusalMeansFull(w: State, step: Step)
    requires Owned(w) && Enabled(w, step) && w.open && (step.CreateArrives? || step.EvictEnds?)
    ensures step.id in Apply(w, step).creates || (w.warm == map[] && !CanReserve(w, Asked(w, step).value.1))
  {
    hide CanReserve, TryCold;
    match step
    case EvictEnds(id, evict) => ColdRefusal(w, id, w.creates[id].want, evict);
    case CreateArrives(id, want, claim, evict) =>
      var w1 := w.(sent := w.sent + {id});
      ColdRefusal(w1, id, want, evict);
      SameRoom(w, w1, want);
      if claim.Some? {
        FailedSwapRestores(w, claim.value);
        assert SwapBack(w1, claim.value) == w1;
      }
  }

  lemma ColdRefusal(w: State, id: string, want: Resources, evict: string)
    ensures id in TryCold(w, id, want, evict).creates || (w.warm == map[] && !CanReserve(w, want))
  {
    hide CanReserve;
  }

  lemma SameRoom(w: State, w1: State, want: Resources)
    requires w1.open == w.open && w1.limits == w.limits && w1.res == w.res
    ensures CanReserve(w1, want) == CanReserve(w, want)
  {
  }

  lemma AllHeldIsReal(w: State)
    requires Owned(w) && w.warm == map[] && w.boots == map[]
    ensures Held(w.res) == HeldReal(w.res)
  {
    forall k ensures k in Held(w.res) <==> k in HeldReal(w.res) {
      assert Sound(w, k);
    }
  }

  lemma AskedIsPending(sys: System, step: Step)
    requires Inv(sys) && Can(sys, Work(step)) && (step.CreateArrives? || step.EvictEnds?)
    ensures step.id in sys.l.pending && step.id !in sys.w.res && sys.l.pending[step.id] == Asked(sys.w, step).value.1
  {
    assert Matched(sys, step.id) && Sound(sys.w, step.id);
    if step.EvictEnds? {
      assert Wants(sys.w, step.id, sys.w.creates[step.id].want);
    }
  }

  /** A scheduled create is never dropped: whatever else is running on the worker, each of its own steps leaves it in
      flight or its sandbox running, the end of an adoption or of a boot included. A turn of its admission does so while
      the worker is open and no warm slot is booting. */
  lemma ScheduledCreateIsNeverRefused(sys: System, events: seq<Event>, now: System, step: Step)
    requires Connected(sys) && Runs(sys, events, now) && Can(now, Work(step))
    requires step.CreateArrives? || step.EvictEnds? || step.ClaimEnds? || step.BootEnds?
    requires step.CreateArrives? || step.EvictEnds? ==> now.w.open && now.w.boots == map[]
    ensures var w := Apply(now.w, step); step.id in w.creates || (step.id in w.labels && w.labels[step.id] == RUNNING)
    ensures step.CreateArrives? || step.EvictEnds? ==> step.id in Apply(now.w, step).creates
  {
    hide Apply, Enabled, Connected, Runs;
    if step.CreateArrives? || step.EvictEnds? {
      ConnectedIsInv(sys);
      RunsKeepInv(sys, events, now);
      AdmissionIsNeverRefused(now, step);
    } else {
      EndsKeepCreate(now.w, step);
    }
  }

  lemma AdmissionIsNeverRefused(now: System, step: Step)
    requires Inv(now) && Can(now, Work(step)) && (step.CreateArrives? || step.EvictEnds?)
    requires now.w.open && now.w.boots == map[]
    ensures step.id in Apply(now.w, step).creates
  {
    RefusalMeansFull(now.w, step);
    AskedIsPending(now, step);
    PendingFits(now, step.id);
    hide Apply, Enabled;
    if now.w.warm == map[] {
      AllHeldIsReal(now.w);
    }
  }

  lemma EndsKeepCreate(w: State, step: Step)
    requires Enabled(w, step) && (step.ClaimEnds? || step.BootEnds?)
    ensures var w' := Apply(w, step);
            step.id in w'.creates || (step.id in w'.labels && w'.labels[step.id] == RUNNING)
  {
    hide Commit;
  }

  lemma EventKeepsLedgerWithin(sys: System, e: Event)
    requires Can(sys, e) && !e.Refresh? && LedgerLimits(sys).Covers(Used(sys.l))
    ensures LedgerLimits(Do(sys, e)) == LedgerLimits(sys) && LedgerLimits(sys).Covers(Used(Do(sys, e).l))
  {
    var l, l' := sys.l, Do(sys, e).l;
    match e
    case Schedule(id, want) =>
      TotalAdd(l.pending, id, want);
    case Confirm(id) =>
      TotalRemove(l.pending, id);
      var r := l.pending[id];
      TotalAdd(map[], id, r);
      TotalCovered(l.local[id := r], l.local, map[][id := r]);
    case Drop(id) =>
      TotalMonotone(l'.pending, l.pending);
      TotalMonotone(l'.local, l.local);
    case Work(step) =>
  }

  predicate NoReport(events: seq<Event>) {
    forall e :: e in events ==> !e.Refresh?
  }

  /** Between reports the ledger never counts more than the worker offers, once it starts out so. */
  lemma {:induction false} LedgerStaysWithinLimits(sys: System, events: seq<Event>, end: System)
    requires Runs(sys, events, end) && NoReport(events) && LedgerLimits(sys).Covers(Used(sys.l))
    ensures LedgerLimits(end).Covers(Used(end.l))
    decreases |events|
  {
    hide Can, Do, Used, LedgerLimits;
    if events != [] {
      assert events == [events[0]] + events[1..];
      EventKeepsLedgerWithin(sys, events[0]);
      LedgerStaysWithinLimits(Do(sys, events[0]), events[1..], end);
    }
  }

  // ---- a report that comes late ----

  /** The ledger counts all that the worker really holds. */
  ghost predicate Covering(sys: System) {
    forall k :: k in HeldReal(sys.w.res) ==> Counted(sys, k, HeldReal(sys.w.res)[k])
  }

  /** A report read off the worker at `was` and applied only now. */
  ghost function Delayed(was: System, now: System, report: Report): System {
    now.(l := Updated(now.l, report), snapped := HeldReal(was.w.res))
  }

  /** Held now but not when the report was taken, and confirmed in between. */
  ghost predicate Overlooked(was: System, events: seq<Event>, now: System, k: string) {
    k in HeldReal(now.w.res) && k !in HeldReal(was.w.res) && Confirm(k) in events
  }

  /** What becomes of `k` after `taken` was read off the worker: `confirmed` says whether its create has been confirmed
      since, `quiet` whether no other report has been applied since. */
  ghost predicate Since(taken: map<string, Resources>, confirmed: bool, quiet: bool, sys: System, k: string) {
    && (confirmed ==> k in sys.w.sent && k !in sys.l.pending)
    && (k in taken ==>
          && k in sys.w.sent
          && (k in HeldReal(sys.w.res) ==> HeldReal(sys.w.res)[k] == taken[k])
          && (forall want :: Wants(sys.w, k, want) ==> want == taken[k]))
    && (k in HeldReal(sys.w.res) && k !in taken ==> if confirmed then quiet ==> k in sys.l.local else k in sys.l.pending)
  }

  lemma SinceNow(sys: System, k: string)
    requires Inv(sys) && (k in HeldReal(sys.w.res) ==> k in sys.w.sent)
    ensures Since(HeldReal(sys.w.res), false, true, sys, k)
  {
    assert Sound(sys.w, k);
  }

  lemma HeldIsSent(w: State, k: string)
    requires Owned(w) && k in HeldReal(w.res)
    ensures k in w.sent
  {
    assert Sound(w, k);
  }

  lemma SentStays(w: State, step: Step, k: string)
    requires Enabled(w, step) && k in w.sent
    ensures k in Apply(w, step).sent
  {
    hide CanReserve, Commit;
    match step
    case CreateArrives(_, _, _, _) =>
    case EvictEnds(_, _) =>
    case _ =>
  }

  lemma WorkKeepsSince(taken: map<string, Resources>, c: bool, q: bool, sys: System, step: Step, k: string)
    requires Inv(sys) && Since(taken, c, q, sys, k) && Can(sys, Work(step))
    ensures Since(taken, c, q, Do(sys, Work(step)), k)
  {
    var sys' := Do(sys, Work(step));
    if k in sys.w.sent {
      SentStays(sys.w, step, k);
    }
    WantsComeFromRequests(sys.w, step, k);
    if step.EvictEnds? && step.id == k {
      assert Wants(sys.w, k, sys.w.creates[k].want);
    }
    if k in HeldReal(sys'.w.res) {
      RealReservationsAreAsked(sys.w, step, k);
      if step.CreateArrives? || step.EvictEnds? {
        AskedIsPending(sys, step);
      }
    }
  }

  lemma EventKeepsSince(taken: map<string, Resources>, c: bool, q: bool, sys: System, e: Event, k: string)
    requires Inv(sys) && Since(taken, c, q, sys, k) && Can(sys, e)
    ensures Since(taken, c || e == Confirm(k), q && !e.Refresh?, Do(sys, e), k)
  {
    match e
    case Work(step) => WorkKeepsSince(taken, c, q, sys, step, k);
    case _ =>
  }

  lemma FirstAndRest(events: seq<Event>, k: string)
    requires events != []
    ensures Confirm(k) in events <==> events[0] == Confirm(k) || Confirm(k) in events[1..]
    ensures NoReport(events) <==> !events[0].Refresh? && NoReport(events[1..])
  {
    assert events == [events[0]] + events[1..];
  }

  lemma {:induction false} RunsKeepSince(taken: map<string, Resources>, c: bool, q: bool, sys: System,
                                         events: seq<Event>, end: System, k: string)
    requires Inv(sys) && Since(taken, c, q, sys, k) && Runs(sys, events, end)
    ensures Since(taken, c || Confirm(k) in events, q && NoReport(events), end, k)
    ensures Inv(end)
    decreases |events|
  {
    if events != [] {
      EventKeepsSince(taken, c, q, sys, events[0], k);
      EventKeepsInv(sys, events[0]);
      FirstAndRest(events, k);
      hide Inv, Since, NoReport;
      var c', q' := c || events[0] == Confirm(k), q && !events[0].Refresh?;
      RunsKeepSince(taken, c', q', Do(sys, events[0]), events[1..], end, k);
    }
  }

  /** One sandbox under a late report: it is forgotten exactly when it was overlooked. */
  lemma ForgottenIff(was: System, report: Report, events: seq<Event>, now: System, k: string)
    requires Inv(was) && Runs(was, events, now) && k in HeldReal(now.w.res)
    ensures Counted(Delayed(was, now, report), k, HeldReal(now.w.res)[k]) <==> !Overlooked(was, events, now, k)
    ensures NoReport(events) && Overlooked(was, events, now, k) ==> k in now.l.local && k !in now.l.pending
  {
    if k in HeldReal(was.w.res) {
      HeldIsSent(was.w, k);
    }
    SinceNow(was, k);
    RunsKeepSince(HeldReal(was.w.res), false, true, was, events, now, k);
    assert Matched(now, k);
  }

  /** A report that is applied late keeps the ledger covering, and with that the whole invariant, if and only if no
      sandbox the worker holds was admitted after the report was taken and confirmed before it was applied. When no
      other report came in between, those are the sandboxes that only the confirmed amounts account for. */
  lemma LateReportCoversIff(sys: System, before: seq<Event>, was: System, report: Report, events: seq<Event>, now: System)
    requires Connected(sys) && Runs(sys, before, was) && Faithful(report, was.w) && Runs(was, events, now)
    ensures Covering(Delayed(was, now, report)) <==> forall k :: !Overlooked(was, events, now, k)
    ensures Inv(Delayed(was, now, report)) <==> Covering(Delayed(was, now, report))
    ensures NoReport(events) ==>
              (Covering(Delayed(was, now, report)) <==>
               forall k :: k in HeldReal(now.w.res) && k in now.l.local ==>
                             k in now.l.pending || k in HeldReal(was.w.res))
  {
    ConnectedIsInv(sys);
    RunsKeepInv(sys, before, was);
    var late := Delayed(was, now, report);
    forall k | k in HeldReal(now.w.res)
      ensures Counted(late, k, HeldReal(now.w.res)[k]) <==> !Overlooked(was, events, now, k)
      ensures NoReport(events) && Overlooked(was, events, now, k) ==> k in now.l.local && k !in now.l.pending
    {
      ForgottenIff(was, report, events, now, k);
    }
    if Covering(late) {
      LateKeepsInv(was, report, events, now);
    } else {
      assert forall k :: Matched(late, k) ==> k in HeldReal(late.w.res) ==> Counted(late, k, HeldReal(late.w.res)[k]);
    }
  }

  lemma LateKeepsInv(was: System, report: Report, events: seq<Event>, now: System)
    requires Inv(was) && Faithful(report, was.w) && Runs(was, events, now) && Covering(Delayed(was, now, report))
    ensures Inv(Delayed(was, now, report))
  {
    RunsKeepInv(was, events, now);
    hide Owned, Runs, Total, HeldReal;
    var late := Delayed(was, now, report);
    assert Demand(late) == Demand(now);
    forall k ensures Matched(late, k) {
      assert Matched(now, k);
    }
  }

  lemma {:induction false} RunsSnoc(sys: System, events: seq<Event>, mid: System, e: Event)
    requires Runs(sys, events, mid) && Can(mid, e)
    ensures Runs(sys, events + [e], Do(mid, e))
    decreases |events|
  {
    hide Can, Do;
    if events == [] {
      assert [e][1..] == [] && events + [e] == [e];
    } else {
      RunsSnoc(Do(sys, events[0]), events[1..], mid, e);
      assert (events + [e])[1..] == events[1..] + [e];
    }
  }

  /** A sandbox is scheduled, created and confirmed. */
  lemma ConfirmedRun(sys: System, id: string, want: Resources) returns (events: seq<Event>, end: System)
    requires Connected(sys) && Can(sys, Schedule(id, want)) && CanReserve(sys.w, want)
    ensures Runs(sys, events, end) && Confirm(id) in events
    ensures end == sys.(w := Booted(sys.w, id, want), l := sys.l.(local := map[id := want]))
  {
    var evict := BootRun(sys.w, id, want);
    hide Apply, Enabled, CanReserve, Owned, Booted, Admitted, Room;
    var s1 := Do(sys, Schedule(id, want));
    RunsSnoc(sys, [], sys, Schedule(id, want));
    var a, b, c := CreateArrives(id, want, None, evict), ContainerStarts(id), BootEnds(id, true);
    RunsSnoc(sys, [] + [Schedule(id, want)], s1, Work(a));
    var s2 := Do(s1, Work(a));
    RunsSnoc(sys, [] + [Schedule(id, want)] + [Work(a)], s2, Work(b));
    var s3 := Do(s2, Work(b));
    StartIs(s2.w, id);
    RunsSnoc(sys, [] + [Schedule(id, want)] + [Work(a)] + [Work(b)], s3, Work(c));
    var s4 := Do(s3, Work(c));
    BootedIsAnswered(sys.w, id, want);
    RunsSnoc(sys, [] + [Schedule(id, want)] + [Work(a)] + [Work(b)] + [Work(c)], s4, Confirm(id));
    events := [] + [Schedule(id, want)] + [Work(a)] + [Work(b)] + [Work(c)] + [Confirm(id)];
    end := Do(s4, Confirm(id));
  }

  lemma StartIs(w: State, id: string)
    requires Enabled(w, ContainerStarts(id))
    ensures Apply(w, ContainerStarts(id)) == w.(up := w.up + {id})
  {
  }

  lemma BootedIsAnswered(w: State, id: string, want: Resources)
    requires w.creates == map[]
    ensures Answered(Booted(w, id, want), id)
  {
  }

  /** It happens from every worker that has just been connected and has room: its first report, applied again after a
      create has been confirmed, makes the ledger count less than the worker holds. */
  lemma LateReportForgets(sys: System, id: string, want: Resources) returns (events: seq<Event>, now: System)
    requires Connected(sys) && Can(sys, Schedule(id, want)) && CanReserve(sys.w, want)
    ensures Runs(sys, events, now) && Faithful(sys.l.report, sys.w) && Overlooked(sys, events, now, id)
    ensures !Total(HeldReal(now.w.res)).AtMost(Used(Delayed(sys, now, sys.l.report).l))
  {
    events, now := ConfirmedRun(sys, id, want);
    assert id !in sys.w.res by {
      assert Sound(sys.w, id);
    }
    hide Owned, CanReserve, Runs, Room, Booted, HeldReal, Used, Total;
    BootedHolds(sys.w, id, want);
    CountsOneTooFew(sys.w, now, sys.l.report, id, want);
  }

  lemma CountsOneTooFew(w: State, now: System, report: Report, id: string, want: Resources)
    requires Faithful(report, w) && now.l.pending == map[] && id !in HeldReal(w.res)
    requires HeldReal(now.w.res) == HeldReal(w.res)[id := want]
    ensures !Total(HeldReal(now.w.res)).AtMost(Used(Updated(now.l, report)))
  {
    hide HeldReal, Used, Total;
    TotalAdd(HeldReal(w.res), id, want);
    UsedAfterUpdate(now.l, report, Total(HeldReal(w.res)));
    TotalEmpty();
  }

  lemma BootedHolds(w: State, id: string, want: Resources)
    requires id !in w.res && !IsWarm(id)
    ensures id !in HeldReal(w.res) && HeldReal(Booted(w, id, want).res) == HeldReal(w.res)[id := want]
  {
  }

  /** Right after a report the ledger is exact if and only if no sandbox it still has pending was already admitted:
      such a sandbox is then counted twice, which only ever makes the scheduler more careful. */
  lemma RefreshIsExactIff(sys: System, report: Report)
    requires Inv(sys) && Can(sys, Refresh(report))
    ensures Used(Do(sys, Refresh(report)).l) == Total(Demand(sys)) <==> HeldReal(sys.w.res).Keys !! sys.l.pending.Keys
  {
    var held, pending := HeldReal(sys.w.res), sys.l.pending;
    UsedAfterUpdate(sys.l, report, Total(held));
    if held.Keys !! pending.Keys {
      TotalUnion(held, pending);
    } else {
      CountsOverlap(held, pending);
    }
  }

  lemma UsedAfterUpdate(l: WorkerLedger, report: Report, held: Amount)
    requires Reported(report) == held
    ensures Used(Updated(l, report)) == held.Plus(Total(l.pending))
  {
    PlusNothing(held.Plus(Total(l.pending)));
  }

  lemma CountsOverlap(a: map<string, Resources>, b: map<string, Resources>)
    requires !(a.Keys !! b.Keys)
    ensures Total(a + b) != Total(a).Plus(Total(b))
  {
    TotalCounts(a);
    TotalCounts(b);
    TotalCounts(a + b);
    var k :| k in a.Keys && k in b.Keys;
    assert (a + b).Keys == a.Keys + b.Keys;
    assert |a.Keys + b.Keys| == |a.Keys| + |b.Keys| - |a.Keys * b.Keys|;
    assert k in a.Keys * b.Keys;
  }
}
