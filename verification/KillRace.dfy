/** A kill that overlaps a create, over the whole worker: one placement and one kill of the same sandbox, interleaved
    with every other coroutine of the worker and every other change of the ledger. The run begins when the placement
    has reserved and recorded the sandbox as CREATING and is about to call the worker; the kill may have read the record
    before that, while it was still waiting. */
module KillRace {
  import opened Resources
  import opened WorkerCapacity
  import opened WorkerProtocol
  import opened WorkerSafety
  import opened Ledger
  import L = Lifecycle

  /** `answered`: the worker has answered the delete, and the answer is on its way back. */
  datatype Placement =
    | Calling(copy: L.Record)                    // the create is on its way to the worker or running there
    | CleaningUp(seen: L.Record, answered: bool) // the answer came after a kill; deleting, with the record as read
    | Failing(copy: L.Record, answered: bool)    // the worker answered with an unusable sandbox; deleting
    | Ran                                        // finished: recorded as RUNNING
    | Removed(clean: bool)                       // finished after its own delete, which went through or not

  datatype Kill =
    | NotYet
    | HasRead(copy: L.Record)
    | AtWorker(copy: L.Record, answered: bool)
    | Over(reached: bool)        // finished; its delete was answered, or the worker could not be reached
    | Unasked                    // finished without a delete: it had read a record that was still waiting

  datatype Race = Race(w: State, l: WorkerLedger, store: L.Record, placement: Placement, kill: Kill)

  datatype Event =
    | Work(step: Step)
    | Books(l: WorkerLedger)        // any change of the ledger that concerns other sandboxes, or a fresh report
    | Answer(running: bool)         // the create returns; re-check the record and act on it
    | CleanupAnswered
    | CleanupReturns(ok: bool)
    | KillReads
    | KillAnnounces
    | KillAnswered
    | KillReturns(reached: bool)

  /** The create coroutine has returned a view, not an error: its record exists. */
  ghost predicate Returned(w: State, id: string) {
    id in w.sent && id !in w.creates && id in w.labels
  }

  /** The worker can answer a delete now: it does not know the sandbox, or it has ended and no delete holds its lock. */
  ghost predicate DeleteAnswered(w: State, id: string) {
    id !in w.labels || (w.labels[id].Ended() && id !in w.deleting)
  }

  ghost predicate Can(r: Race, id: string, e: Event) {
    match e
    case Work(step) =>
      && Enabled(r.w, step) && Honest(r.w, step)
      && (step.CreateArrives? && step.id == id ==> r.placement.Calling?)
    case Books(l) => (id in l.pending ==> id in r.l.pending) && (id in l.local ==> id in r.l.local)
    case Answer(_) => r.placement.Calling? && Returned(r.w, id)
    case CleanupAnswered => (r.placement.CleaningUp? || r.placement.Failing?) && DeleteAnswered(r.w, id)
    case CleanupReturns(ok) =>
      (r.placement.CleaningUp? || r.placement.Failing?) && (ok ==> r.placement.answered)
    case KillReads => r.kill.NotYet?
    case KillAnnounces => r.kill.HasRead?
    case KillAnswered => r.kill.AtWorker? && DeleteAnswered(r.w, id)
    case KillReturns(reached) => r.kill.AtWorker? && (reached ==> r.kill.answered)
  }

  /** What the control plane does with the worker's answer to a create, in one go. */
  function AnswerDoes(l: WorkerLedger, store: L.Record, copy: L.Record, id: string, running: bool)
    : (WorkerLedger, L.Record, Placement)
  {
    if store.state != L.CREATING then (Released(l, id), store, CleaningUp(store, false))
    else if !running then (Released(l, id), store, Failing(copy, false))
    else (Confirmed(l, id), copy.(state := L.RUNNING), Ran)
  }

  /** What it writes when its own delete has come back. */
  function CleanupDoes(store: L.Record, placement: Placement): L.Record {
    match placement
    case CleaningUp(seen, _) => if seen.state.Terminal() then store else seen.(state := L.STOPPED)
    case Failing(copy, _) => copy.(state := L.FAILED)
    case _ => store
  }

  /** What a kill does with the record it has read, and when its delete has come back. */
  function AnnounceDoes(copy: L.Record): (L.Record, Kill) {
    if copy.state in {L.RUNNING, L.CREATING}
    then (copy.(state := L.STOPPING), AtWorker(copy.(state := L.STOPPING), false))
    else (copy.(state := L.STOPPED), Unasked)
  }

  function ReturnDoes(l: WorkerLedger, copy: L.Record, id: string, reached: bool): (WorkerLedger, L.Record, Kill) {
    (Released(l, id), copy.(state := if reached then L.STOPPED else L.LOST), Over(reached))
  }

  ghost function Do(r: Race, id: string, e: Event): Race
    requires Can(r, id, e)
  {
    match e
    case Work(step) => r.(w := Apply(r.w, step))
    case Books(l) => r.(l := l)
    case Answer(running) =>
      var (l, store, placement) := AnswerDoes(r.l, r.store, r.placement.copy, id, running);
      r.(l := l, store := store, placement := placement)
    case CleanupAnswered => r.(placement := r.placement.(answered := true))
    case CleanupReturns(ok) => r.(store := CleanupDoes(r.store, r.placement), placement := Removed(ok))
    case KillReads => r.(kill := if r.store.state.Terminal() then Over(true) else HasRead(r.store))
    case KillAnnounces =>
      var (store, kill) := AnnounceDoes(r.kill.copy);
      r.(store := store, kill := kill)
    case KillAnswered => r.(kill := r.kill.(answered := true))
    case KillReturns(reached) =>
      var (l, store, kill) := ReturnDoes(r.l, r.kill.copy, id, reached);
      r.(l := l, store := store, kill := kill)
  }

  // ---- the worker's side of it ----

  /** The create came and went, and the sandbox has ended without a delete still in flight. */
  ghost predicate Gone(w: State, id: string) {
    id in w.sent && id !in w.creates && id !in w.deleting && (id in w.labels ==> w.labels[id].Ended())
  }

  lemma GoneHoldsNothing(w: State, id: string)
    requires Owned(w) && Contained(w, id) && !IsWarm(id) && Gone(w, id)
    ensures id !in w.res && id !in w.up
  {
    assert Sound(w, id);
  }

  /** The sandbox's record, coroutines and deletes are as before. */
  ghost predicate Untouched(w: State, w': State, id: string) {
    && id in w'.sent && id !in w'.creates
    && (id in w'.labels <==> id in w.labels) && (id in w.labels ==> w'.labels[id] == w.labels[id])
    && (id in w'.deleting <==> id in w.deleting)
  }

  lemma ColdLeavesAlone(w: State, id: string, k: string, want: Resources, evict: string)
    requires id in w.sent && id !in w.creates && id != k
    ensures Untouched(w, TryCold(w, k, want, evict), id)
  {
    hide CanReserve;
    if CanReserve(w, want) {
    } else if w.warm != map[] {
    } else {
    }
  }

  /** Admissions, evictions and warm boots do not concern a sandbox whose create has come and gone. */
  lemma ReservingLeavesAlone(w: State, id: string, step: Step)
    requires id in w.sent && id !in w.creates && Enabled(w, step)
    requires step.CreateArrives? || step.EvictEnds?
    ensures Untouched(w, Apply(w, step), id)
  {
    hide CanReserve, TryCold;
    match step
    case CreateArrives(k, want, claim, evict) =>
      var w1 := w.(sent := w.sent + {k});
      ColdLeavesAlone(w1, id, k, want, evict);
      if claim.Some? {
        ColdLeavesAlone(SwapBack(w1, claim.value), id, k, want, evict);
      }
    case EvictEnds(k, evict) =>
      ColdLeavesAlone(w, id, k, w.creates[k].want, evict);
  }

  lemma RuntimeLeavesAlone(w: State, id: string, step: Step)
    requires id in w.sent && id !in w.creates && Enabled(w, step)
    requires !step.CreateArrives? && !step.EvictEnds? && !step.ClaimEnds? && !step.BootEnds? && !step.DiscardEnds?
    requires !step.DeleteArrives? && !step.DeleteEnds? && !step.InspectEnds?
    ensures Untouched(w, Apply(w, step), id)
  {
    hide CanReserve;
    match step
    case DeleteRemoves(k) =>
    case _ =>
  }

  /** Once gone, nothing on the worker brings the sandbox back. */
  lemma GoneStays(w: State, id: string, step: Step)
    requires Owned(w) && Gone(w, id) && Enabled(w, step)
    ensures Gone(Apply(w, step), id)
  {
    hide Arrive, TryCold, CanReserve;
    assert Sound(w, id);
    hide Owned, Sound;
    match step
    case ClaimEnds(_, _) =>
    case BootEnds(_, _) =>
    case DiscardEnds(_, _) =>
    case DeleteArrives(_) =>
    case DeleteEnds(_, _) =>
    case InspectEnds(_, _, _) =>
    case CreateArrives(_, _, _, _) => ReservingLeavesAlone(w, id, step);
    case EvictEnds(_, _) => ReservingLeavesAlone(w, id, step);
    case _ => RuntimeLeavesAlone(w, id, step);
  }

  /** After the create has returned a view, its record stays and no create coroutine reappears. */
  lemma ReturnedStays(w: State, id: string, step: Step)
    requires Owned(w) && Returned(w, id) && Enabled(w, step)
    ensures Returned(Apply(w, step), id)
  {
    hide Arrive, TryCold, CanReserve;
    assert Sound(w, id);
    hide Owned;
    match step
    case ClaimEnds(_, _) =>
    case BootEnds(_, _) =>
    case DiscardEnds(_, _) =>
    case DeleteArrives(_) =>
    case DeleteEnds(_, _) =>
    case InspectEnds(_, _, _) =>
    case CreateArrives(_, _, _, _) => ReservingLeavesAlone(w, id, step);
    case EvictEnds(_, _) => ReservingLeavesAlone(w, id, step);
    case _ => RuntimeLeavesAlone(w, id, step);
  }

  // ---- the invariant ----

  ghost predicate Unbooked(l: WorkerLedger, id: string) {
    id !in l.pending && id !in l.local
  }

  /** The kill works on a record it read before the placement. */
  ghost predicate Stale(k: Kill) {
    k.Unasked? || (k.HasRead? && k.copy.state.Waiting())
  }

  /** The stored state while no kill has written. */
  function PlacedState(p: Placement): L.SandboxState {
    match p
    case Calling(_) => L.CREATING
    case Failing(_, _) => L.CREATING
    case Ran => L.RUNNING
    case _ => L.FAILED
  }

  /** What the stored state can be, by how far the kill and the placement are. */
  ghost predicate StoreFits(r: Race) {
    match r.kill
    case NotYet => r.store.state == PlacedState(r.placement)
    case HasRead(copy) => !copy.state.Terminal() && copy.state != L.STOPPING && r.store.state == PlacedState(r.placement)
    case AtWorker(copy, _) =>
      && copy.state == L.STOPPING
      && (r.store.state == L.STOPPING || (r.placement.Removed? && r.store.state.Terminal()))
    case _ => r.store.state.Terminal()
  }

  /** What the placement knows when it cleans up. */
  ghost predicate CleanupFits(r: Race) {
    r.placement.CleaningUp? ==>
      && (r.kill.AtWorker? || r.kill.Over? || r.kill.Unasked?)
      && (r.placement.seen.state == L.STOPPING || (r.placement.seen.state.Terminal() && !r.kill.AtWorker?))
      && (r.placement.seen.state == L.STOPPING ==> !r.kill.Unasked?)
  }

  /** An answered delete finds the sandbox gone, unless the create had not been answered yet. */
  ghost predicate AnswersFit(r: Race, id: string) {
    && ((r.placement.CleaningUp? || r.placement.Failing?) && r.placement.answered ==> Gone(r.w, id))
    && (r.placement == Removed(true) ==> Gone(r.w, id))
    && (r.placement.Ran? && r.kill.AtWorker? && r.kill.answered ==> Gone(r.w, id))
    && (r.placement.Ran? && r.kill == Over(true) ==> Gone(r.w, id))
  }

  ghost predicate Inv(r: Race, id: string) {
    && Owned(r.w) && Contained(r.w, id) && !IsWarm(id)
    && StoreFits(r) && CleanupFits(r) && AnswersFit(r, id)
    && (r.placement.Calling? ==> r.placement.copy.state == L.CREATING)
    && (!r.placement.Calling? ==> Returned(r.w, id))
    && (r.placement.CleaningUp? || r.placement.Failing? || r.placement.Removed? || r.kill.Over? ==> Unbooked(r.l, id))
  }

  lemma WorkKeepsInv(r: Race, id: string, step: Step)
    requires Inv(r, id) && Can(r, id, Work(step))
    ensures Inv(Do(r, id, Work(step)), id)
  {
    StepKeepsOwned(r.w, step);
    StepKeepsContained(r.w, step, id);
    if !r.placement.Calling? {
      ReturnedStays(r.w, id, step);
    }
    if Gone(r.w, id) {
      GoneStays(r.w, id, step);
    }
  }

  lemma EventKeepsInv(r: Race, id: string, e: Event)
    requires Inv(r, id) && Can(r, id, e)
    ensures Inv(Do(r, id, e), id)
  {
    match e
    case Work(step) => WorkKeepsInv(r, id, step);
    case _ =>
      assert Sound(r.w, id);
  }

  // ---- over whole runs ----

  ghost predicate Runs(r: Race, id: string, events: seq<Event>, end: Race)
    decreases |events|
  {
    if events == [] then r == end else Can(r, id, events[0]) && Runs(Do(r, id, events[0]), id, events[1..], end)
  }

  lemma {:induction false} RunsKeepInv(r: Race, id: string, events: seq<Event>, end: Race)
    requires Inv(r, id) && Runs(r, id, events, end)
    ensures Inv(end, id)
    ensures Stale(end.kill) <==> Stale(r.kill)
    decreases |events|
  {
    if events != [] {
      EventKeepsInv(r, id, events[0]);
      RunsKeepInv(Do(r, id, events[0]), id, events[1..], end);
    }
  }

  /** The placement has just reserved and recorded the sandbox; the worker has never heard of it. A kill has not begun,
      or has read the record while it was waiting. */
  ghost predicate JustPlaced(r: Race, id: string) {
    && Owned(r.w) && !IsWarm(id) && id !in r.w.sent && id !in r.w.up
    && r.store.state == L.CREATING && r.placement == Calling(r.store)
    && (r.kill.NotYet? || (r.kill.HasRead? && r.kill.copy.state.Waiting()))
  }

  lemma JustPlacedIsInv(r: Race, id: string)
    requires JustPlaced(r, id)
    ensures Inv(r, id)
  {
    assert Sound(r.w, id);
  }

  /** Both coroutines have finished. */
  predicate Ended(r: Race) {
    (r.placement.Ran? || r.placement.Removed?) && (r.kill.Over? || r.kill.Unasked?)
  }

  /** The delete that has to go through: the placement's own when it noticed the kill, the kill's when it did not. */
  predicate DeleteWentThrough(r: Race) {
    r.placement == Removed(true) || (r.placement.Ran? && r.kill == Over(true))
  }

  /** The worker's answer was acted on, and good, before the kill wrote anything. */
  predicate AnsweredFirst(events: seq<Event>) {
    events != [] && match events[0]
                    case Answer(running) => running
                    case KillAnnounces => false
                    case _ => AnsweredFirst(events[1..])
  }

  /** The kill that fails: it read the record before the placement, and its write is delayed past the whole create. */
  ghost predicate Overtaken(r: Race, events: seq<Event>) {
    Stale(r.kill) && AnsweredFirst(events)
  }

  lemma {:induction false} RanStays(r: Race, id: string, events: seq<Event>, end: Race)
    requires Runs(r, id, events, end)
    ensures r.placement.Ran? ==> end.placement.Ran?
    ensures r.placement.CleaningUp? || r.placement.Failing? || r.placement.Removed? ==> !end.placement.Ran?
    ensures r.placement.Calling? && r.kill.Unasked? && r.store.state == L.STOPPED ==> !end.placement.Ran?
    decreases |events|
  {
    if events != [] {
      RanStays(Do(r, id, events[0]), id, events[1..], end);
    }
  }

  lemma {:induction false} RanWhenAnsweredFirst(r: Race, id: string, events: seq<Event>, end: Race)
    requires Inv(r, id) && Runs(r, id, events, end) && Stale(r.kill) && r.kill.HasRead? && r.placement.Calling?
    requires Ended(end)
    ensures end.placement.Ran? <==> AnsweredFirst(events)
    decreases |events|
  {
    if events != [] {
      var next := Do(r, id, events[0]);
      EventKeepsInv(r, id, events[0]);
      if events[0].Answer? || events[0].KillAnnounces? {
        RanStays(next, id, events[1..], end);
      } else {
        RanWhenAnsweredFirst(next, id, events[1..], end);
      }
    }
  }

  /** However a kill overlaps a create, once both have finished the record has ended. And unless the kill was
      overtaken, the ledger counts nothing for the sandbox, and if the delete that mattered went through, the worker
      holds neither a reservation nor a running container for it. */
  lemma KillWins(r: Race, id: string, events: seq<Event>, end: Race)
    requires JustPlaced(r, id) && Runs(r, id, events, end) && Ended(end)
    ensures end.store.state.Terminal()
    ensures !Overtaken(r, events) ==> id !in end.l.pending && id !in end.l.local
    ensures !Overtaken(r, events) && DeleteWentThrough(end) ==>
              id !in end.w.res && id !in end.w.up && (id in end.w.labels ==> end.w.labels[id].Ended())
  {
    JustPlacedIsInv(r, id);
    RunsKeepInv(r, id, events, end);
    if Stale(r.kill) {
      RanWhenAnsweredFirst(r, id, events, end);
    }
    if DeleteWentThrough(end) {
      GoneHoldsNothing(end.w, id);
    }
  }

  // ---- and only an overtaken kill loses ----

  /** Somebody has asked the worker to delete the sandbox, or has tried to. */
  predicate Asked(r: Race) {
    r.kill.AtWorker? || r.kill.Over? || r.placement.CleaningUp? || r.placement.Failing? || r.placement.Removed?
  }

  /** Nothing ends the sandbox but these two: no crash, and no delete that neither of them has asked for. */
  predicate Undisturbed(r: Race, id: string, e: Event) {
    e.Work? ==>
      && e.step != ContainerStops(id)
      && (e.step == DeleteArrives(id) ==> Asked(r))
      && (e.step.InspectEnds? && e.step.id == id ==> e.step.present && e.step.running)
  }

  ghost predicate RunsAlone(r: Race, id: string, events: seq<Event>, end: Race)
    decreases |events|
  {
    if events == [] then r == end
    else Can(r, id, events[0]) && Undisturbed(r, id, events[0]) && RunsAlone(Do(r, id, events[0]), id, events[1..], end)
  }

  /** While nobody has asked for a delete: the sandbox comes up undisturbed, or its boot fails and leaves no record. */
  ghost predicate Living(w: State, id: string) {
    && id !in w.deleting
    && (id in w.creates && w.creates[id].Booting? ==> id in w.labels && w.labels[id] == CREATING)
    && (id in w.creates && w.creates[id].Discarding? ==> w.creates[id].failed)
    && (id in w.labels && id !in w.creates ==> w.labels[id] == RUNNING)
  }

  lemma ColdKeepsLiving(w: State, id: string, k: string, want: Resources, evict: string)
    requires Living(w, id) && (k == id ==> id !in w.labels)
    ensures Living(TryCold(w, k, want, evict), id)
  {
    hide CanReserve;
    if CanReserve(w, want) {
    } else if w.warm != map[] {
    } else {
    }
  }

  lemma CreateKeepsLiving(w: State, id: string, step: Step)
    requires Owned(w) && Living(w, id) && Enabled(w, step) && (step.CreateArrives? || step.EvictEnds?)
    ensures Living(Apply(w, step), id)
  {
    hide CanReserve, TryCold;
    assert Sound(w, step.id);
    match step
    case CreateArrives(k, want, claim, evict) =>
      var w1 := w.(sent := w.sent + {k});
      ColdKeepsLiving(w1, id, k, want, evict);
      if claim.Some? {
        ColdKeepsLiving(SwapBack(w1, claim.value), id, k, want, evict);
      }
    case EvictEnds(k, evict) => ColdKeepsLiving(w, id, k, w.creates[k].want, evict);
  }

  lemma ClaimKeepsLiving(w: State, id: string, k: string, adopted: bool)
    requires Sound(w, id) && Living(w, id) && k in w.creates && w.creates[k].Claiming?
    ensures Living(EndClaim(w, k, adopted), id)
  {
  }

  lemma BootKeepsLiving(w: State, id: string, k: string, ok: bool)
    requires Living(w, id) && k in w.creates && w.creates[k].Booting?
    ensures Living(EndBoot(w, k, ok), id)
  {
    if k == id {
    } else {
    }
  }

  lemma DiscardKeepsLiving(w: State, id: string, k: string, removed: bool)
    requires Living(w, id) && k in w.creates && w.creates[k].Discarding?
    ensures Living(EndDiscard(w, k, removed), id)
  {
    if k == id {
    } else {
    }
  }

  lemma RestKeepsLiving(w: State, id: string, step: Step)
    requires Sound(w, id) && Living(w, id) && Enabled(w, step)
    requires !step.CreateArrives? && !step.EvictEnds? && !step.ClaimEnds? && !step.BootEnds? && !step.DiscardEnds?
    requires step != DeleteArrives(id) && (step.InspectEnds? && step.id == id ==> step.present && step.running)
    ensures Living(Apply(w, step), id)
  {
    hide CanReserve;
    match step
    case DeleteArrives(_) =>
    case DeleteEnds(_, _) =>
    case InspectEnds(_, _, _) =>
    case _ =>
  }

  lemma StepKeepsLiving(w: State, id: string, step: Step)
    requires Owned(w) && Living(w, id) && Enabled(w, step)
    requires step != DeleteArrives(id) && (step.InspectEnds? && step.id == id ==> step.present && step.running)
    ensures Living(Apply(w, step), id)
  {
    assert Sound(w, id);
    hide Living, Sound, Owned, Arrive, TryCold, CanReserve, EndClaim, EndBoot, EndDiscard, EndDelete, EndInspect;
    match step
    case CreateArrives(_, _, _, _) => CreateKeepsLiving(w, id, step);
    case EvictEnds(_, _) => CreateKeepsLiving(w, id, step);
    case ClaimEnds(k, adopted) => ClaimKeepsLiving(w, id, k, adopted);
    case BootEnds(k, ok) => BootKeepsLiving(w, id, k, ok);
    case DiscardEnds(k, removed) => DiscardKeepsLiving(w, id, k, removed);
    case _ => RestKeepsLiving(w, id, step);
  }

  lemma {:induction false} UnaskedSandboxLives(r: Race, id: string, events: seq<Event>, end: Race)
    requires Owned(r.w) && RunsAlone(r, id, events, end) && (!Asked(r) ==> Living(r.w, id))
    ensures !Asked(end) ==> Living(end.w, id)
    ensures Runs(r, id, events, end)
    decreases |events|
  {
    if events != [] {
      if events[0].Work? {
        StepKeepsOwned(r.w, events[0].step);
        if !Asked(r) {
          StepKeepsLiving(r.w, id, events[0].step);
        }
      }
      hide Living;
      UnaskedSandboxLives(Do(r, id, events[0]), id, events[1..], end);
    }
  }

  /** When nothing else ends the sandbox and no delete is lost, the worker still runs it at the end if and only if the
      kill was overtaken. */
  lemma SandboxSurvivesIff(r: Race, id: string, events: seq<Event>, end: Race)
    requires JustPlaced(r, id) && RunsAlone(r, id, events, end) && Ended(end)
    requires end.placement != Removed(false) && !(end.placement.Ran? && end.kill == Over(false))
    ensures (id in end.w.res && id in end.w.labels && end.w.labels[id] == RUNNING) <==> Overtaken(r, events)
    ensures Overtaken(r, events) || id !in end.w.res
  {
    JustPlacedIsInv(r, id);
    assert Sound(r.w, id);
    UnaskedSandboxLives(r, id, events, end);
    RunsKeepInv(r, id, events, end);
    if Stale(r.kill) {
      RanWhenAnsweredFirst(r, id, events, end);
    }
    if !Overtaken(r, events) {
      KillWins(r, id, events, end);
    }
    assert Sound(end.w, id);
  }

  // ---- runs in which it happens ----

  lemma {:induction false} RunsSnoc(r: Race, id: string, events: seq<Event>, mid: Race, e: Event)
    requires Runs(r, id, events, mid) && Can(mid, id, e)
    ensures Runs(r, id, events + [e], Do(mid, id, e))
    decreases |events|
  {
    if events == [] {
      assert [e][1..] == [] && events + [e] == [e];
    } else {
      RunsSnoc(Do(r, id, events[0]), id, events[1..], mid, e);
      assert (events + [e])[1..] == events[1..] + [e];
    }
  }

  /** The create arrives and the sandbox boots. */
  lemma BootEvents(r: Race, id: string, want: Resources) returns (events: seq<Event>, end: Race)
    requires Owned(r.w) && id !in r.w.sent && !IsWarm(id) && CanReserve(r.w, want) && r.placement.Calling?
    ensures Runs(r, id, events, end) && end == r.(w := Booted(r.w, id, want))
    ensures forall e :: e in events ==> e.Work?
  {
    var evict := BootRun(r.w, id, want);
    hide Apply, Enabled, CanReserve, Owned, Booted, Admitted;
    var a, b, c := Work(CreateArrives(id, want, None, evict)), Work(ContainerStarts(id)), Work(BootEnds(id, true));
    ContainerStartIs(Admitted(r.w, id, want), id);
    RunsSnoc(r, id, [], r, a);
    var r1 := r.(w := Admitted(r.w, id, want));
    RunsSnoc(r, id, [a], r1, b);
    var r2 := r.(w := Apply(r1.w, ContainerStarts(id)));
    RunsSnoc(r, id, [a] + [b], r2, c);
    events := [a] + [b] + [c];
    end := r.(w := Booted(r.w, id, want));
    assert [] + [a] == [a];
  }

  lemma ContainerStartIs(w: State, id: string)
    requires Enabled(w, ContainerStarts(id))
    ensures Apply(w, ContainerStarts(id)) == w.(up := w.up + {id})
  {
  }

  /** From every such start in which the worker has room, a stale kill can be overtaken: the record ends as STOPPED, and
      the sandbox goes on running, reserved for and counted. */
  lemma StaleKillCanLose(r: Race, id: string, want: Resources) returns (events: seq<Event>, end: Race)
    requires JustPlaced(r, id) && Stale(r.kill) && CanReserve(r.w, want)
    ensures Runs(r, id, events, end) && Ended(end) && Overtaken(r, events)
    ensures end.store.state == L.STOPPED && id in end.w.up && id in end.w.res && id in end.w.labels
    ensures end.w.labels[id] == RUNNING && (id in r.l.pending ==> id in end.l.local)
  {
    assert Sound(r.w, id);
    var boot, booted := BootEvents(r, id, want);
    hide CanReserve, Owned;
    var ran := Do(booted, id, Answer(true));
    RunsSnoc(r, id, boot, booted, Answer(true));
    end := Do(ran, id, KillAnnounces);
    RunsSnoc(r, id, boot + [Answer(true)], ran, KillAnnounces);
    events := boot + [Answer(true)] + [KillAnnounces];
    AnsweredAfter(boot, [Answer(true)] + [KillAnnounces]);
    assert events == boot + ([Answer(true)] + [KillAnnounces]);
  }

  lemma {:induction false} AnsweredAfter(a: seq<Event>, b: seq<Event>)
    requires forall e :: e in a ==> e.Work?
    ensures AnsweredFirst(a + b) == AnsweredFirst(b)
    decreases |a|
  {
    if a == [] {
      assert a + b == b;
    } else {
      AnsweredAfter(a[1..], b);
      assert (a + b)[1..] == a[1..] + b;
    }
  }

  /** A kill that reads and announces itself during the create, and cannot reach the worker. */
  lemma KillIsLost(r: Race, id: string, events: seq<Event>, r0: Race) returns (more: seq<Event>, end: Race)
    requires Runs(r, id, events, r0) && r0.kill.NotYet? && r0.store.state == L.CREATING
    ensures Runs(r, id, more, end)
    ensures end == r0.(l := Released(r0.l, id), store := r0.store.(state := L.LOST), kill := Over(false))
  {
    var r1 := Do(r0, id, KillReads);
    RunsSnoc(r, id, events, r0, KillReads);
    var r2 := Do(r1, id, KillAnnounces);
    RunsSnoc(r, id, events + [KillReads], r1, KillAnnounces);
    end := Do(r2, id, KillReturns(false));
    RunsSnoc(r, id, events + [KillReads] + [KillAnnounces], r2, KillReturns(false));
    more := events + [KillReads] + [KillAnnounces] + [KillReturns(false)];
  }

  /** The proviso on the deletes is needed too: a kill that cannot reach the worker and a clean-up delete that is lost
      leave the sandbox running, although the record ends as LOST. */
  lemma LostCleanupLeavesSandbox(r: Race, id: string, want: Resources) returns (events: seq<Event>, end: Race)
    requires JustPlaced(r, id) && r.kill.NotYet? && CanReserve(r.w, want)
    ensures Runs(r, id, events, end) && Ended(end) && !Overtaken(r, events) && end.placement == Removed(false)
    ensures end.store.state == L.LOST && id in end.w.up && id in end.w.res && id in end.w.labels
    ensures end.w.labels[id] == RUNNING
  {
    hide Apply, Enabled, AnsweredFirst;
    assert Sound(r.w, id);
    var boot, r0 := BootEvents(r, id, want);
    assert Returned(r0.w, id) && id in r0.w.up && id in r0.w.res && r0.w.labels[id] == RUNNING;
    hide CanReserve, Owned, Booted, Returned, Sound;
    var killed, r3 := KillIsLost(r, id, boot, r0);
    var r4 := Do(r3, id, Answer(true));
    RunsSnoc(r, id, killed, r3, Answer(true));
    end := Do(r4, id, CleanupReturns(false));
    RunsSnoc(r, id, killed + [Answer(true)], r4, CleanupReturns(false));
    events := killed + [Answer(true)] + [CleanupReturns(false)];
  }
}
