/** Every interleaving of a worker's coroutines (worker/service.py), as a state machine.
    A step runs one coroutine from the point where it is suspended to its next suspension: the code between two
    awaits is atomic, and lock bodies without an await never suspend. */
module WorkerProtocol {
  import opened Resources
  import opened WorkerCapacity

  datatype Label = CREATING | RUNNING | STOPPING | STOPPED | FAILED | LOST | EXPIRED {
    predicate Ended() {
      this in {STOPPED, FAILED, LOST, EXPIRED}
    }

    predicate Live() {
      this in {CREATING, RUNNING}
    }
  }

  /** Where the create coroutine of one sandbox is suspended. */
  datatype Create =
    | Claiming(slot: string, want: Resources) // the slot's reservation is swapped, the runtime is adopting
    | Evicting(want: Resources)               // nothing is reserved; a slot's container is being removed
    | Booting                                 // reserved and recorded; the runtime is creating the container
    | Discarding(failed: bool)                // released again; the container is being removed

  datatype State = State(
    limits: Limits,
    open: bool,                     // neither draining nor under disk pressure
    res: Reservations,
    warm: map<string, Resources>,   // parked slots and what each was booted with
    boots: map<string, Resources>,  // slots still booting
    labels: map<string, Label>,     // the recorded sandboxes
    creates: map<string, Create>,   // create coroutines in flight
    deleting: map<string, bool>,    // delete coroutines holding the sandbox's lock; true once the container is removed
    inspecting: set<string>,        // sandboxes a refresh may still be looking at
    sent: set<string>,              // ids some create or an earlier life of the worker used
    up: set<string>)                // sandboxes whose container runs

  datatype Step =
    | CreateArrives(id: string, want: Resources, claim: Option<string>, evict: string)
    | ClaimEnds(id: string, adopted: bool)
    | EvictEnds(id: string, evict: string)
    | ContainerStarts(id: string)
    | ContainerStops(id: string)
    | BootEnds(id: string, ok: bool)
    | DiscardEnds(id: string, removed: bool)
    | DeleteArrives(id: string)
    | DeleteRemoves(id: string)
    | DeleteEnds(id: string, final: Label)
    | InspectStarts(id: string)
    | InspectEnds(id: string, present: bool, running: bool)
    | WarmBootStarts(slot: string, want: Resources)
    | WarmBootEnds(slot: string, ok: bool)
    | OpenChanges(open: bool)

  // ---- the steps ----

  ghost predicate CanReserve(s: State, want: Resources) {
    s.open && s.limits.Fits(Total(Held(s.res)), want)
  }

  /** One turn of the admission loop: reserve, else evict a slot and wait for its removal, else refuse. */
  ghost function TryCold(s: State, id: string, want: Resources, evict: string): (s': State)
    ensures s'.limits == s.limits
  {
    if CanReserve(s, want) then
      s.(res := s.res[id := Reservation(want, false)], labels := s.labels[id := CREATING],
         creates := s.creates[id := Booting])
    else if s.warm != map[] then
      s.(warm := s.warm - {evict}, res := s.res - {evict}, creates := s.creates[id := Evicting(want)])
    else
      s.(creates := s.creates - {id})
  }

  /** The claim's swap when it cannot take the request: the slot's reservation is put back. */
  ghost function SwapBack(s: State, slot: string): (s': State)
    requires slot in s.warm
    ensures s'.limits == s.limits
  {
    s.(res := (s.res - {slot})[slot := Reservation(s.warm[slot], true)],
       warm := (s.warm - {slot})[slot := s.warm[slot]])
  }

  ghost function Arrive(s: State, id: string, want: Resources, claim: Option<string>, evict: string): (s': State)
    requires claim.Some? ==> claim.value in s.warm
    ensures s'.limits == s.limits
  {
    var s := s.(sent := s.sent + {id});
    if !s.open then s
    else match claim
      case None => TryCold(s, id, want, evict)
      case Some(slot) =>
        var freed := s.(res := s.res - {slot});
        if CanReserve(freed, want) then
          s.(res := freed.res[id := Reservation(want, false)], warm := s.warm - {slot},
             creates := s.creates[id := Claiming(slot, want)])
        else
          TryCold(SwapBack(s, slot), id, want, evict)
  }

  ghost function EndClaim(s: State, id: string, adopted: bool): (s': State)
    requires id in s.creates && s.creates[id].Claiming?
    ensures s'.limits == s.limits
  {
    if adopted then
      s.(labels := s.labels[id := RUNNING], res := Commit(s.res, id), creates := s.creates - {id}, up := s.up + {id})
    else
      s.(res := s.res - {id}, creates := s.creates[id := Evicting(s.creates[id].want)])
  }

  ghost function EndBoot(s: State, id: string, ok: bool): (s': State)
    ensures s'.limits == s.limits
  {
    if !ok then
      s.(labels := s.labels[id := FAILED], res := s.res - {id}, creates := s.creates[id := Discarding(true)])
    else if id in s.labels && s.labels[id] == CREATING then
      s.(labels := s.labels[id := RUNNING], res := Commit(s.res, id), creates := s.creates - {id})
    else
      s.(res := s.res - {id}, creates := s.creates[id := Discarding(false)])
  }

  ghost function EndDiscard(s: State, id: string, removed: bool): (s': State)
    requires id in s.creates && s.creates[id].Discarding?
    ensures s'.limits == s.limits
  {
    s.(labels := if s.creates[id].failed then s.labels - {id} else s.labels, creates := s.creates - {id},
       up := if removed then s.up - {id} else s.up)
  }

  ghost function EndDelete(s: State, id: string, final: Label): (s': State)
    ensures s'.limits == s.limits
  {
    s.(labels := if id in s.labels then s.labels[id := final] else s.labels,
       res := s.res - {id}, deleting := s.deleting - {id})
  }

  ghost function EndInspect(s: State, id: string, present: bool, running: bool): (s': State)
    ensures s'.limits == s.limits
  {
    if !present then s.(labels := s.labels[id := LOST], res := s.res - {id})
    else if !running && id in s.labels && s.labels[id] == RUNNING
    then s.(labels := s.labels[id := STOPPED], res := s.res - {id})
    else s
  }

  ghost function StartWarmBoot(s: State, slot: string, want: Resources): (s': State)
    ensures s'.limits == s.limits
  {
    if CanReserve(s, want) then s.(res := s.res[slot := Reservation(want, false)], boots := s.boots[slot := want]) else s
  }

  ghost function EndWarmBoot(s: State, slot: string, ok: bool): (s': State)
    requires slot in s.boots
    ensures s'.limits == s.limits
  {
    if ok then s.(res := Commit(s.res, slot), warm := s.warm[slot := s.boots[slot]], boots := s.boots - {slot})
    else s.(res := s.res - {slot}, boots := s.boots - {slot})
  }

  function Commit(res: Reservations, id: string): Reservations {
    if id in res then res[id := res[id].(committed := true)] else res
  }

  ghost predicate Enabled(s: State, step: Step) {
    match step
    case CreateArrives(id, _, claim, evict) =>
      id !in s.sent && !IsWarm(id) && (claim.Some? ==> claim.value in s.warm) && (s.warm != map[] ==> evict in s.warm)
    case ClaimEnds(id, _) => id in s.creates && s.creates[id].Claiming?
    case EvictEnds(id, evict) => id in s.creates && s.creates[id].Evicting? && (s.warm != map[] ==> evict in s.warm)
    case ContainerStarts(id) => id in s.creates && s.creates[id].Booting?
    case ContainerStops(_) => true
    case BootEnds(id, _) => id in s.creates && s.creates[id].Booting?
    case DiscardEnds(id, _) => id in s.creates && s.creates[id].Discarding?
    case DeleteArrives(id) => id in s.labels && !s.labels[id].Ended() && id !in s.deleting
    case DeleteRemoves(id) => id in s.deleting
    case DeleteEnds(id, final) => id in s.deleting && final in {STOPPED, EXPIRED}
    case InspectStarts(id) => id in s.labels && s.labels[id] == RUNNING
    case InspectEnds(id, _, _) => id in s.inspecting
    case WarmBootStarts(slot, _) => IsWarm(slot) && slot !in s.res && slot !in s.warm && slot !in s.boots
    case WarmBootEnds(slot, _) => slot in s.boots
    case OpenChanges(_) => true
  }

  ghost function Apply(s: State, step: Step): (s': State)
    requires Enabled(s, step)
    ensures s'.limits == s.limits
  {
    match step
    case CreateArrives(id, want, claim, evict) => Arrive(s, id, want, claim, evict)
    case ClaimEnds(id, adopted) => EndClaim(s, id, adopted)
    case EvictEnds(id, evict) => TryCold(s, id, s.creates[id].want, evict)
    case ContainerStarts(id) => s.(up := s.up + {id})
    case ContainerStops(id) => s.(up := s.up - {id})
    case BootEnds(id, ok) => EndBoot(s, id, ok)
    case DiscardEnds(id, removed) => EndDiscard(s, id, removed)
    case DeleteArrives(id) => s.(labels := s.labels[id := STOPPING], deleting := s.deleting[id := false])
    case DeleteRemoves(id) => s.(up := s.up - {id}, deleting := s.deleting[id := true])
    case DeleteEnds(id, final) => EndDelete(s, id, final)
    case InspectStarts(id) => s.(inspecting := s.inspecting + {id})
    case InspectEnds(id, present, running) => EndInspect(s, id, present, running)
    case WarmBootStarts(slot, want) => StartWarmBoot(s, slot, want)
    case WarmBootEnds(slot, ok) => EndWarmBoot(s, slot, ok)
    case OpenChanges(open) => s.(open := open)
  }

  // ---- what every step keeps ----

  /** A slot, parked or booting, holds its own reservation. */
  ghost predicate SlotHeld(s: State, k: string) {
    && (k in s.warm ==> IsWarm(k) && k !in s.boots && k in s.res && s.res[k] == Reservation(s.warm[k], true))
    && (k in s.boots ==> IsWarm(k) && k in s.res && s.res[k] == Reservation(s.boots[k], false))
  }

  /** Where one sandbox stands: its label, its coroutines and its reservation agree. */
  ghost predicate Consistent(s: State, id: string) {
    && (id in s.creates ==>
          match s.creates[id]
          case Claiming(_, want) =>
            id !in s.labels && id !in s.deleting && id in s.res && s.res[id] == Reservation(want, false)
          case Evicting(_) => id !in s.labels && id !in s.deleting && id !in s.res
          case Booting => id in s.labels && s.labels[id] != RUNNING
          case Discarding(_) => id in s.labels && !s.labels[id].Live() && id !in s.res)
    && (id in s.labels ==>
          match s.labels[id]
          case CREATING => id in s.creates && s.creates[id].Booting? && id in s.res && !s.res[id].committed
          case RUNNING => id !in s.creates && id in s.res && s.res[id].committed
          case STOPPING => id in s.deleting
          case _ => true)
    && (id in s.deleting && id in s.labels ==> !s.labels[id].Live())
    && (id in s.inspecting ==> id in s.labels && s.labels[id] != CREATING && id !in s.creates)
  }

  /** A sandbox's reservation is backed by a claim in flight or by a record that has not ended. */
  ghost predicate Backed(s: State, id: string) {
    || (id in s.creates && s.creates[id].Claiming?)
    || (id in s.labels && !s.labels[id].Ended())
  }

  ghost predicate Known(s: State, id: string) {
    id in s.labels || id in s.creates || id in s.deleting || id in s.inspecting
  }

  /** Everything the worker believes about one id. */
  ghost predicate Sound(s: State, k: string) {
    && SlotHeld(s, k)
    && Consistent(s, k)
    && (k in s.sent ==> !IsWarm(k))
    && (Known(s, k) ==> k in s.sent)
    && (k in s.res ==> k in s.warm || k in s.boots || (k in s.sent && Backed(s, k)))
  }

  ghost predicate Owned(s: State) {
    forall k :: Sound(s, k)
  }

  ghost predicate Admissible(s: State) {
    s.limits.Covers(Total(Held(s.res)))
  }

  lemma AdmitKeepsSound(s: State, id: string, want: Resources, k: string)
    requires Sound(s, k) && id in s.sent && !IsWarm(id) && id !in s.labels && id !in s.deleting && id !in s.res
    requires id !in s.inspecting
    ensures Sound(s.(res := s.res[id := Reservation(want, false)], labels := s.labels[id := CREATING],
                     creates := s.creates[id := Booting]), k)
  {
  }

  lemma EvictKeepsSound(s: State, id: string, want: Resources, evict: string, k: string)
    requires Sound(s, k) && id in s.sent && !IsWarm(id) && id !in s.labels && id !in s.deleting && id !in s.res
    requires id !in s.inspecting && IsWarm(evict) && evict !in s.boots && evict !in s.sent
    ensures Sound(s.(warm := s.warm - {evict}, res := s.res - {evict}, creates := s.creates[id := Evicting(want)]), k)
  {
  }

  lemma RefuseKeepsSound(s: State, id: string, k: string)
    requires Sound(s, k) && (id in s.creates ==> s.creates[id].Evicting?) && id !in s.labels && id !in s.res
    ensures Sound(s.(creates := s.creates - {id}), k)
  {
  }

  lemma TryColdKeepsOwned(s: State, id: string, want: Resources, evict: string)
    requires Owned(s) && id in s.sent && id !in s.labels && id !in s.deleting && id !in s.res
    requires id in s.creates ==> s.creates[id].Evicting?
    requires s.warm != map[] ==> evict in s.warm
    ensures Owned(TryCold(s, id, want, evict))
  {
    hide CanReserve;
    assert Sound(s, id) && Sound(s, evict);
    forall k ensures Sound(TryCold(s, id, want, evict), k) {
      assert Sound(s, k);
      hide Sound;
      if CanReserve(s, want) {
        AdmitKeepsSound(s, id, want, k);
      } else if s.warm != map[] {
        EvictKeepsSound(s, id, want, evict, k);
      } else {
        RefuseKeepsSound(s, id, k);
      }
    }
  }

  /** A claim that cannot take the request leaves the reservations and the parked slots exactly as they were. */
  lemma FailedSwapRestores(s: State, slot: string)
    requires Owned(s) && slot in s.warm
    ensures SwapBack(s, slot) == s
  {
    assert Sound(s, slot);
    assert (s.res - {slot})[slot := Reservation(s.warm[slot], true)] == s.res;
    assert (s.warm - {slot})[slot := s.warm[slot]] == s.warm;
  }

  lemma ClaimKeepsOwned(s: State, id: string, want: Resources, slot: string)
    requires Owned(s) && id in s.sent && !Known(s, id) && id !in s.res && slot in s.warm
    ensures Owned(s.(res := (s.res - {slot})[id := Reservation(want, false)], warm := s.warm - {slot},
                     creates := s.creates[id := Claiming(slot, want)]))
  {
    var s' := s.(res := (s.res - {slot})[id := Reservation(want, false)], warm := s.warm - {slot},
                 creates := s.creates[id := Claiming(slot, want)]);
    forall k ensures Sound(s', k) {
      assert Sound(s, k) && Sound(s, id) && Sound(s, slot);
    }
  }

  lemma ArriveKeepsOwned(s: State, id: string, want: Resources, claim: Option<string>, evict: string)
    requires Owned(s) && Enabled(s, CreateArrives(id, want, claim, evict))
    ensures Owned(Arrive(s, id, want, claim, evict))
  {
    var s1 := s.(sent := s.sent + {id});
    assert Sound(s, id);
    forall k ensures Sound(s1, k) {
      assert Sound(s, k);
    }
    if s.open {
      if claim.Some? && CanReserve(s1.(res := s1.res - {claim.value}), want) {
        ClaimKeepsOwned(s1, id, want, claim.value);
      } else {
        if claim.Some? {
          FailedSwapRestores(s1, claim.value);
        }
        TryColdKeepsOwned(s1, id, want, evict);
      }
    }
  }

  lemma EndClaimKeepsOwned(s: State, id: string, adopted: bool)
    requires Owned(s) && id in s.creates && s.creates[id].Claiming?
    ensures Owned(EndClaim(s, id, adopted))
  {
    var s' := EndClaim(s, id, adopted);
    forall k ensures Sound(s', k) {
      assert Sound(s, k);
    }
  }

  lemma BootedKeepsOwned(s: State, id: string)
    requires Owned(s) && id in s.creates && s.creates[id].Booting? && id in s.labels && s.labels[id] == CREATING
    ensures Owned(s.(labels := s.labels[id := RUNNING], res := Commit(s.res, id), creates := s.creates - {id}))
  {
    var s' := s.(labels := s.labels[id := RUNNING], res := Commit(s.res, id), creates := s.creates - {id});
    forall k ensures Sound(s', k) {
      assert Sound(s, k);
    }
  }

  lemma UnbootedKeepsOwned(s: State, id: string, shown: Label, failed: bool)
    requires Owned(s) && id in s.creates && s.creates[id].Booting? && id in s.labels
    requires shown == FAILED || (shown == s.labels[id] && !shown.Live())
    ensures Owned(s.(labels := s.labels[id := shown], res := s.res - {id}, creates := s.creates[id := Discarding(failed)]))
  {
    var s' := s.(labels := s.labels[id := shown], res := s.res - {id}, creates := s.creates[id := Discarding(failed)]);
    forall k ensures Sound(s', k) {
      assert Sound(s, k);
    }
  }

  lemma EndBootKeepsOwned(s: State, id: string, ok: bool)
    requires Owned(s) && id in s.creates && s.creates[id].Booting?
    ensures Owned(EndBoot(s, id, ok))
  {
    assert Sound(s, id);
    hide Owned;
    if ok && s.labels[id] == CREATING {
      BootedKeepsOwned(s, id);
    } else {
      UnbootedKeepsOwned(s, id, if ok then s.labels[id] else FAILED, !ok);
      assert s.labels[id := s.labels[id]] == s.labels;
    }
  }

  lemma EndDiscardKeepsOwned(s: State, id: string, removed: bool)
    requires Owned(s) && id in s.creates && s.creates[id].Discarding?
    ensures Owned(EndDiscard(s, id, removed))
  {
    var s' := EndDiscard(s, id, removed);
    forall k ensures Sound(s', k) {
      assert Sound(s, k);
    }
  }

  lemma StartDeleteKeepsOwned(s: State, id: string)
    requires Owned(s) && Enabled(s, DeleteArrives(id))
    ensures Owned(Apply(s, DeleteArrives(id)))
  {
    var s' := Apply(s, DeleteArrives(id));
    forall k ensures Sound(s', k) {
      assert Sound(s, k);
    }
  }

  lemma EndDeleteKeepsOwned(s: State, id: string, final: Label)
    requires Owned(s) && id in s.deleting && final in {STOPPED, EXPIRED}
    ensures Owned(EndDelete(s, id, final))
  {
    var s' := EndDelete(s, id, final);
    forall k ensures Sound(s', k) {
      assert Sound(s, k);
    }
  }

  lemma EndInspectKeepsOwned(s: State, id: string, present: bool, running: bool)
    requires Owned(s) && id in s.inspecting
    ensures Owned(EndInspect(s, id, present, running))
  {
    var s' := EndInspect(s, id, present, running);
    forall k ensures Sound(s', k) {
      assert Sound(s, k);
    }
  }

  lemma StartWarmBootKeepsOwned(s: State, slot: string, want: Resources)
    requires Owned(s) && Enabled(s, WarmBootStarts(slot, want))
    ensures Owned(s.(res := s.res[slot := Reservation(want, false)], boots := s.boots[slot := want]))
  {
    var s' := s.(res := s.res[slot := Reservation(want, false)], boots := s.boots[slot := want]);
    forall k ensures Sound(s', k) {
      assert Sound(s, k);
    }
  }

  lemma EndWarmBootKeepsOwned(s: State, slot: string, ok: bool)
    requires Owned(s) && slot in s.boots
    ensures Owned(EndWarmBoot(s, slot, ok))
  {
    var s' := EndWarmBoot(s, slot, ok);
    forall k ensures Sound(s', k) {
      assert Sound(s, k);
    }
  }

  /** Steps that touch no reservation: the fields the invariant speaks about stay, or only `inspecting` grows. */
  lemma QuietStepKeepsOwned(s: State, step: Step)
    requires Owned(s) && Enabled(s, step)
    requires step.ContainerStarts? || step.ContainerStops? || step.DeleteRemoves? || step.InspectStarts? || step.OpenChanges?
    ensures Owned(Apply(s, step))
  {
    var s' := Apply(s, step);
    forall k ensures Sound(s', k) {
      assert Sound(s, k);
    }
  }

  /** Reservation ownership survives every step of every coroutine. */
  lemma StepKeepsOwned(s: State, step: Step)
    requires Owned(s) && Enabled(s, step)
    ensures Owned(Apply(s, step))
  {
    match step
    case CreateArrives(id, want, claim, evict) => ArriveKeepsOwned(s, id, want, claim, evict);
    case ClaimEnds(id, adopted) => EndClaimKeepsOwned(s, id, adopted);
    case EvictEnds(id, evict) =>
      assert Sound(s, id);
      TryColdKeepsOwned(s, id, s.creates[id].want, evict);
    case BootEnds(id, ok) => EndBootKeepsOwned(s, id, ok);
    case DiscardEnds(id, removed) => EndDiscardKeepsOwned(s, id, removed);
    case DeleteArrives(id) => StartDeleteKeepsOwned(s, id);
    case DeleteEnds(id, final) => EndDeleteKeepsOwned(s, id, final);
    case InspectEnds(id, present, running) => EndInspectKeepsOwned(s, id, present, running);
    case WarmBootStarts(slot, want) => StartWarmBootKeepsOwned(s, slot, want);
    case WarmBootEnds(slot, ok) => EndWarmBootKeepsOwned(s, slot, ok);
    case _ => QuietStepKeepsOwned(s, step);
  }
}
