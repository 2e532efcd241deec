/** What holds over every run of the worker's coroutines: it never over-admits, never leaks, leaves no container
    behind, and can really hand out the capacity it advertises. */
module WorkerSafety {
  import opened Resources
  import opened WorkerCapacity
  import opened WorkerProtocol

  // ---- never over-admits ----

  lemma AddKeepsCovers(limits: Limits, m: map<string, Resources>, id: string, r: Resources)
    requires id !in m && limits.Fits(Total(m), r)
    ensures limits.Covers(Total(m[id := r]))
  {
    TotalAdd(m, id, r);
  }

  lemma LessKeepsCovers(limits: Limits, part: map<string, Resources>, whole: map<string, Resources>)
    requires SubMap(part, whole) && limits.Covers(Total(whole))
    ensures limits.Covers(Total(part))
  {
    TotalMonotone(part, whole);
  }

  lemma TryColdKeepsAdmissible(s: State, id: string, want: Resources, evict: string)
    requires Admissible(s) && id !in s.res
    ensures Admissible(TryCold(s, id, want, evict))
  {
    hide Total;
    var s' := TryCold(s, id, want, evict);
    if CanReserve(s, want) {
      AddKeepsCovers(s.limits, Held(s.res), id, want);
      assert Held(s'.res) == Held(s.res)[id := want];
    } else {
      LessKeepsCovers(s.limits, Held(s'.res), Held(s.res));
    }
  }

  lemma ArriveKeepsAdmissible(s: State, id: string, want: Resources, claim: Option<string>, evict: string)
    requires Owned(s) && Admissible(s) && Enabled(s, CreateArrives(id, want, claim, evict))
    ensures Admissible(Arrive(s, id, want, claim, evict))
  {
    assert Sound(s, id);
    var s1 := s.(sent := s.sent + {id});
    if s.open {
      if claim.Some? {
        var freed := s1.(res := s1.res - {claim.value});
        if CanReserve(freed, want) {
          AddKeepsCovers(s.limits, Held(freed.res), id, want);
          assert Held(freed.res[id := Reservation(want, false)]) == Held(freed.res)[id := want];
        } else {
          FailedSwapRestores(s, claim.value);
          TryColdKeepsAdmissible(s1, id, want, evict);
          assert SwapBack(s1, claim.value) == s1;
        }
      } else {
        TryColdKeepsAdmissible(s1, id, want, evict);
      }
    }
  }

  lemma CommitsReserveNothing(res: Reservations, id: string)
    ensures Held(Commit(res, id)) == Held(res)
    ensures HeldReal(Commit(res, id)) == HeldReal(res)
    ensures SubMap(Held(res - {id}), Held(res))
  {
  }

  /** Only arrivals, turns of the admission loop and warm boots reserve anything. */
  lemma OtherStepsReserveNothing(s: State, step: Step)
    requires Enabled(s, step) && !step.CreateArrives? && !step.EvictEnds? && !step.WarmBootStarts?
    ensures SubMap(Held(Apply(s, step).res), Held(s.res))
  {
    var id := if step.WarmBootEnds? then step.slot else if step.OpenChanges? then "" else step.id;
    CommitsReserveNothing(s.res, id);
    assert Apply(s, step).res in {s.res, s.res - {id}, Commit(s.res, id)};
  }

  lemma StepKeepsAdmissible(s: State, step: Step)
    requires Owned(s) && Admissible(s) && Enabled(s, step)
    ensures Admissible(Apply(s, step))
  {
    match step
    case CreateArrives(id, want, claim, evict) => ArriveKeepsAdmissible(s, id, want, claim, evict);
    case EvictEnds(id, evict) =>
      assert Sound(s, id);
      TryColdKeepsAdmissible(s, id, s.creates[id].want, evict);
    case WarmBootStarts(slot, want) =>
      if CanReserve(s, want) {
        AddKeepsCovers(s.limits, Held(s.res), slot, want);
        assert Held(s.res[slot := Reservation(want, false)]) == Held(s.res)[slot := want];
      }
    case _ =>
      OtherStepsReserveNothing(s, step);
      LessKeepsCovers(s.limits, Held(Apply(s, step).res), Held(s.res));
  }

  // ---- over whole runs ----

  ghost predicate Run(s: State, steps: seq<Step>, end: State)
    decreases |steps|
  {
    if steps == [] then s == end else Enabled(s, steps[0]) && Run(Apply(s, steps[0]), steps[1..], end)
  }

  /** A worker that has just started, with nothing left from an earlier life. */
  ghost predicate Fresh(s: State) {
    && s.res == map[] && s.warm == map[] && s.boots == map[] && s.labels == map[] && s.creates == map[]
    && s.deleting == map[] && s.inspecting == {} && s.sent == {} && s.up == {}
    && s.limits.Covers(NOTHING)
  }

  lemma {:induction false} RunKeeps(s: State, steps: seq<Step>, end: State)
    requires Owned(s) && Admissible(s) && Run(s, steps, end)
    ensures Owned(end) && Admissible(end)
    decreases |steps|
  {
    if steps != [] {
      StepKeepsOwned(s, steps[0]);
      StepKeepsAdmissible(s, steps[0]);
      RunKeeps(Apply(s, steps[0]), steps[1..], end);
    }
  }

  /** However creates, claims, boots, evictions, deletes, refreshes and reaping interleave, the worker's reservations
      stay within its allocatable CPU and memory and within its cap on sandboxes. */
  lemma NeverOverAdmits(s: State, steps: seq<Step>, end: State)
    requires Fresh(s) && Run(s, steps, end)
    ensures Total(Held(end.res)).cpu <= s.limits.cpu && Total(Held(end.res)).mem <= s.limits.mem
    ensures s.limits.slots.Some? ==> |end.res| <= s.limits.slots.value
    ensures Owned(end)
  {
    assert forall k :: Sound(s, k);
    assert Held(s.res) == map[];
    RunKeeps(s, steps, end);
    LimitsFixed(s, steps, end);
    TotalCounts(Held(end.res));
    assert Held(end.res).Keys == end.res.Keys;
  }

  lemma {:induction false} LimitsFixed(s: State, steps: seq<Step>, end: State)
    requires Run(s, steps, end)
    ensures end.limits == s.limits
    decreases |steps|
  {
    if steps != [] {
      LimitsFixed(Apply(s, steps[0]), steps[1..], end);
    }
  }

  // ---- ownership, read off the invariant ----

  datatype Owner = Parked | SlotBoot | Claim | Record

  /** Who answers for the reservation held under `k`. */
  ghost predicate Owns(s: State, o: Owner, k: string) {
    match o
    case Parked => k in s.warm
    case SlotBoot => k in s.boots
    case Claim => k in s.creates && s.creates[k].Claiming?
    case Record => k in s.labels && !s.labels[k].Ended() && k in s.res
  }

  lemma OwnedMeans(s: State, k: string)
    requires Owned(s)
    ensures k in s.res ==> exists o :: Owns(s, o, k)
    ensures forall o, p :: Owns(s, o, k) && Owns(s, p, k) ==> o == p && k in s.res
    ensures k in s.labels && s.labels[k].Live() ==> k in s.res
    ensures k in s.res && k in s.labels ==> s.labels[k].Live() || (s.labels[k] == STOPPING && k in s.deleting)
  {
    assert Sound(s, k);
    if k in s.res {
      assert Owns(s, Parked, k) || Owns(s, SlotBoot, k) || Owns(s, Claim, k) || Owns(s, Record, k);
    }
  }

  lemma Reachable(start: State, steps: seq<Step>, s: State)
    requires Fresh(start) && Run(start, steps, s)
    ensures Owned(s)
  {
    NeverOverAdmits(start, steps, s);
  }

  /** In every reachable state every reservation has exactly one owner, every live sandbox holds one, and a stopping
      sandbox that still holds one has the delete in flight that will release it. */
  lemma ReservationsAreOwned(start: State, steps: seq<Step>, s: State, k: string)
    requires Fresh(start) && Run(start, steps, s)
    ensures k in s.res ==> exists o :: Owns(s, o, k)
    ensures forall o, p :: Owns(s, o, k) && Owns(s, p, k) ==> o == p && k in s.res
    ensures k in s.labels && s.labels[k].Live() ==> k in s.res
    ensures k in s.res && k in s.labels ==> s.labels[k].Live() || (s.labels[k] == STOPPING && k in s.deleting)
  {
    Reachable(start, steps, s);
    OwnedMeans(s, k);
  }

  lemma OwnedMeansNoLeak(s: State)
    requires Owned(s) && s.creates == map[] && s.boots == map[] && s.deleting == map[]
    ensures s.res.Keys == s.warm.Keys + (set id | id in s.labels && s.labels[id] == RUNNING)
  {
    forall k ensures k in s.res <==> k in s.warm || (k in s.labels && s.labels[k] == RUNNING) {
      assert Sound(s, k);
    }
  }

  /** Nothing leaks: in every reachable state with no coroutine in flight, what is reserved is the parked slots and the
      running sandboxes. */
  lemma NoLeakWhenQuiet(start: State, steps: seq<Step>, s: State)
    requires Fresh(start) && Run(start, steps, s)
    requires s.creates == map[] && s.boots == map[] && s.deleting == map[]
    ensures s.res.Keys == s.warm.Keys + (set id | id in s.labels && s.labels[id] == RUNNING)
  {
    Reachable(start, steps, s);
    OwnedMeansNoLeak(s);
  }

  // ---- no container is left behind ----

  /** The runtime answers truthfully: removals go through, and an inspection that reports a container missing or
      exited is right. (The worker suppresses removal errors and takes any inspection error for absence.) */
  ghost predicate Honest(s: State, step: Step)
    requires Enabled(s, step)
  {
    match step
    case DiscardEnds(_, removed) => removed
    case DeleteEnds(id, _) => s.deleting[id]
    case InspectEnds(id, present, running) => (present && running) || id !in s.up
    case _ => true
  }

  /** A container that runs belongs to a sandbox that is booting, being discarded, running, or about to be removed. */
  ghost predicate Contained(s: State, id: string) {
    id in s.up ==>
      || (id in s.creates && (s.creates[id].Booting? || s.creates[id].Discarding?))
      || (id in s.labels && s.labels[id] == RUNNING)
      || (id in s.deleting && !s.deleting[id])
  }

  lemma ColdKeepsContained(s: State, id: string, want: Resources, evict: string, k: string)
    requires Contained(s, k) && id !in s.labels && id !in s.deleting && (id in s.creates ==> s.creates[id].Evicting?)
    ensures Contained(TryCold(s, id, want, evict), k)
  {
    hide CanReserve;
    if CanReserve(s, want) {
    } else if s.warm != map[] {
    } else {
    }
  }

  lemma CreateStepKeepsContained(s: State, step: Step, k: string)
    requires Owned(s) && Enabled(s, step) && Contained(s, k)
    requires step.CreateArrives? || step.EvictEnds?
    ensures Contained(Apply(s, step), k)
  {
    hide CanReserve, TryCold;
    assert Sound(s, step.id);
    match step
    case CreateArrives(id, want, claim, evict) =>
      var s1 := s.(sent := s.sent + {id});
      ColdKeepsContained(s1, id, want, evict, k);
      if claim.Some? {
        ColdKeepsContained(SwapBack(s1, claim.value), id, want, evict, k);
      }
    case EvictEnds(id, evict) => ColdKeepsContained(s, id, s.creates[id].want, evict, k);
  }

  lemma BootStepKeepsContained(s: State, step: Step, k: string)
    requires Owned(s) && Enabled(s, step) && Contained(s, k) && Honest(s, step)
    requires step.ClaimEnds? || step.BootEnds? || step.DiscardEnds?
    ensures Contained(Apply(s, step), k)
  {
    hide CanReserve, TryCold;
    assert Sound(s, k) && Sound(s, step.id);
    hide Owned;
    match step
    case ClaimEnds(id, adopted) =>
    case BootEnds(id, ok) =>
    case DiscardEnds(id, removed) =>
  }

  lemma OtherStepKeepsContained(s: State, step: Step, k: string)
    requires Owned(s) && Enabled(s, step) && Contained(s, k) && Honest(s, step)
    requires !step.CreateArrives? && !step.EvictEnds? && !step.ClaimEnds? && !step.BootEnds? && !step.DiscardEnds?
    ensures Contained(Apply(s, step), k)
  {
    hide CanReserve, TryCold;
    assert Sound(s, k);
    hide Owned;
    match step
    case DeleteEnds(id, final) =>
    case InspectEnds(id, present, running) =>
    case _ =>
  }

  lemma StepKeepsContained(s: State, step: Step, k: string)
    requires Owned(s) && Enabled(s, step) && Honest(s, step) && Contained(s, k)
    ensures Contained(Apply(s, step), k)
  {
    hide *;
    if step.CreateArrives? || step.EvictEnds? {
      CreateStepKeepsContained(s, step, k);
    } else if step.ClaimEnds? || step.BootEnds? || step.DiscardEnds? {
      BootStepKeepsContained(s, step, k);
    } else {
      OtherStepKeepsContained(s, step, k);
    }
  }

  /** A run in which the runtime answers truthfully throughout. */
  ghost predicate HonestRun(s: State, steps: seq<Step>, end: State)
    decreases |steps|
  {
    if steps == [] then s == end
    else Enabled(s, steps[0]) && Honest(s, steps[0]) && HonestRun(Apply(s, steps[0]), steps[1..], end)
  }

  lemma {:induction false} HonestRunIsRun(s: State, steps: seq<Step>, end: State)
    requires HonestRun(s, steps, end)
    ensures Run(s, steps, end)
    decreases |steps|
  {
    if steps != [] {
      HonestRunIsRun(Apply(s, steps[0]), steps[1..], end);
    }
  }

  lemma {:induction false} HonestRunKeepsContained(s: State, steps: seq<Step>, end: State, k: string)
    requires Owned(s) && Contained(s, k) && HonestRun(s, steps, end)
    ensures Owned(end) && Contained(end, k)
    decreases |steps|
  {
    hide Owned, Contained, Honest, Enabled, Apply;
    if steps != [] {
      StepKeepsOwned(s, steps[0]);
      StepKeepsContained(s, steps[0], k);
      HonestRunKeepsContained(Apply(s, steps[0]), steps[1..], end, k);
    }
  }

  /** Over every such run from a fresh worker a running container belongs to a sandbox that is booting, being discarded,
      running, or about to be removed; one without a reservation has a create or a delete in flight. */
  lemma ContainersAreAccounted(start: State, steps: seq<Step>, s: State, k: string)
    requires Fresh(start) && HonestRun(start, steps, s) && k in s.up
    ensures || (k in s.creates && (s.creates[k].Booting? || s.creates[k].Discarding?))
            || (k in s.labels && s.labels[k] == RUNNING && k in s.res)
            || (k in s.deleting && !s.deleting[k])
  {
    assert forall j :: Sound(start, j);
    assert Contained(start, k);
    HonestRunKeepsContained(start, steps, s, k);
    assert Sound(s, k);
  }

  /** A removal of `k` is still to come, and `step` is not the end of that delete. */
  ghost predicate RemovalPending(s: State, step: Step, k: string) {
    k in s.deleting && !s.deleting[k] && !(step.DeleteEnds? && step.id == k)
  }

  /** The steps in which the worker lets go of `k` on the runtime's word alone. */
  ghost predicate LetsGo(s: State, step: Step, k: string) {
    match step
    case DiscardEnds(id, removed) => id == k && !removed
    case DeleteEnds(id, _) => id == k && k !in s.creates
    case InspectEnds(id, present, running) => id == k && !(present && running)
    case _ => false
  }

  lemma CreateStepLetsNothingGo(s: State, step: Step, k: string)
    requires Owned(s) && Enabled(s, step) && Contained(s, k)
    requires !step.DiscardEnds? && !step.DeleteEnds? && !step.InspectEnds?
    ensures Contained(Apply(s, step), k)
  {
    StepKeepsContained(s, step, k);
  }

  lemma DiscardLeavesIff(s: State, id: string, removed: bool, k: string)
    requires Owned(s) && Contained(s, k) && Enabled(s, DiscardEnds(id, removed))
    ensures !Contained(EndDiscard(s, id, removed), k) <==>
            k in s.up && !RemovalPending(s, DiscardEnds(id, removed), k) && id == k && !removed
  {
    assert Sound(s, k);
    hide Owned, Sound;
    if id == k {
    } else {
    }
  }

  lemma DeleteLeavesIff(s: State, id: string, final: Label, k: string)
    requires Owned(s) && Contained(s, k) && Enabled(s, DeleteEnds(id, final))
    ensures !Contained(EndDelete(s, id, final), k) <==>
            k in s.up && !RemovalPending(s, DeleteEnds(id, final), k) && id == k && k !in s.creates
  {
    assert Sound(s, k);
    hide Owned;
    if id == k {
    } else {
    }
  }

  lemma InspectLeavesIff(s: State, id: string, present: bool, running: bool, k: string)
    requires Owned(s) && Contained(s, k) && Enabled(s, InspectEnds(id, present, running))
    ensures !Contained(EndInspect(s, id, present, running), k) <==>
            k in s.up && !RemovalPending(s, InspectEnds(id, present, running), k) && id == k && !(present && running)
  {
    assert Sound(s, k);
    hide Owned;
    if id == k {
    } else {
    }
  }

  /** With a runtime that may lie, a step leaves `k`'s container running with nobody to remove it exactly when the
      container is up, no removal is pending, and the worker lets go of it: a discard whose removal failed, the end of
      a delete whose removal failed, or an inspection that missed it. */
  lemma StepLeavesContainerIff(s: State, step: Step, k: string)
    requires Owned(s) && Contained(s, k) && Enabled(s, step)
    ensures !Contained(Apply(s, step), k) <==> k in s.up && !RemovalPending(s, step, k) && LetsGo(s, step, k)
  {
    hide CanReserve, TryCold, Arrive, EndDiscard, EndDelete, EndInspect, EndBoot, EndClaim, Owned, Contained;
    match step
    case DiscardEnds(id, removed) => DiscardLeavesIff(s, id, removed, k);
    case DeleteEnds(id, final) => DeleteLeavesIff(s, id, final, k);
    case InspectEnds(id, present, running) => InspectLeavesIff(s, id, present, running, k);
    case _ => CreateStepLetsNothingGo(s, step, k);
  }

  /** A worker on which `id` has been created cold and has booted. */
  ghost function Booted(s: State, id: string, want: Resources): State {
    s.(res := s.res[id := Reservation(want, true)], labels := s.labels[id := RUNNING], sent := s.sent + {id},
       up := s.up + {id})
  }

  ghost function Admitted(s: State, id: string, want: Resources): State {
    s.(res := s.res[id := Reservation(want, false)], labels := s.labels[id := CREATING], sent := s.sent + {id},
       creates := s.creates[id := Booting])
  }

  lemma ArrivalAdmits(s: State, id: string, want: Resources, evict: string)
    requires CanReserve(s, want)
    ensures Arrive(s, id, want, None, evict) == Admitted(s, id, want)
  {
    assert s.open && CanReserve(s.(sent := s.sent + {id}), want);
  }

  lemma BootSucceeds(s: State, id: string, want: Resources)
    requires id !in s.creates
    ensures var started := Admitted(s, id, want).(up := s.up + {id}); EndBoot(started, id, true) == Booted(s, id, want)
  {
    assert s.creates[id := Booting] - {id} == s.creates;
    assert s.labels[id := CREATING][id := RUNNING] == s.labels[id := RUNNING];
    assert Commit(s.res[id := Reservation(want, false)], id) == s.res[id := Reservation(want, true)];
  }

  function BootSteps(id: string, want: Resources, evict: string): seq<Step> {
    [CreateArrives(id, want, None, evict), ContainerStarts(id), BootEnds(id, true)]
  }

  lemma RunThree(s: State, a: Step, b: Step, c: Step)
    requires Enabled(s, a) && Enabled(Apply(s, a), b) && Enabled(Apply(Apply(s, a), b), c)
    ensures Run(s, [a, b, c], Apply(Apply(Apply(s, a), b), c))
  {
    hide Apply, Enabled;
    var s2 := Apply(Apply(s, a), b);
    assert [c][1..] == [] && [b, c][1..] == [c] && [a, b, c][1..] == [b, c];
    assert Run(s2, [c], Apply(s2, c));
    assert Run(Apply(s, a), [b, c], Apply(s2, c));
  }

  /** Any worker with room for a new sandbox can boot it. */
  lemma BootRun(s: State, id: string, want: Resources) returns (evict: string)
    requires Owned(s) && id !in s.sent && !IsWarm(id) && CanReserve(s, want)
    ensures Run(s, BootSteps(id, want, evict), Booted(s, id, want))
    ensures Enabled(s, CreateArrives(id, want, None, evict))
    ensures Apply(s, CreateArrives(id, want, None, evict)) == Admitted(s, id, want)
    ensures Enabled(Admitted(s, id, want), ContainerStarts(id))
    ensures var started := Admitted(s, id, want).(up := s.up + {id});
            Enabled(started, BootEnds(id, true)) && Apply(started, BootEnds(id, true)) == Booted(s, id, want)
  {
    assert Sound(s, id);
    hide Owned, Sound;
    evict := if s.warm == map[] then "" else var k :| k in s.warm; k;
    ArrivalAdmits(s, id, want, evict);
    BootSucceeds(s, id, want);
    hide CanReserve, Arrive, EndBoot, Booted;
    RunThree(s, CreateArrives(id, want, None, evict), ContainerStarts(id), BootEnds(id, true));
  }

  lemma {:induction false} RunAppend(s: State, a: seq<Step>, mid: State, b: seq<Step>, end: State)
    requires Run(s, a, mid) && Run(mid, b, end)
    ensures Run(s, a + b, end)
    decreases |a|
  {
    if a == [] {
      assert a + b == b;
    } else {
      RunAppend(Apply(s, a[0]), a[1..], mid, b, end);
      assert (a + b)[1..] == a[1..] + b;
    }
  }

  /** It does happen in runs from a fresh worker, whichever limits and request: here by an inspection that fails. The
      container stays up, without a reservation and with nobody to remove it. */
  lemma FailedInspectionLeavesContainer(s: State, id: string, want: Resources) returns (steps: seq<Step>, end: State)
    requires Fresh(s) && !IsWarm(id) && CanReserve(s, want)
    ensures Run(s, steps, end)
    ensures id in end.up && id !in end.res && end.labels == map[id := LOST] && end.deleting == map[] && end.creates == map[]
  {
    assert forall k :: Sound(s, k);
    var evict := BootRun(s, id, want);
    hide CanReserve, Owned, Sound;
    var booted := Booted(s, id, want);
    var s4 := Apply(booted, InspectStarts(id));
    var last := [InspectStarts(id), InspectEnds(id, false, false)];
    end := Apply(s4, last[1]);
    assert last[1..] == [last[1]] && [last[1]][1..] == [];
    assert Run(s4, [last[1]], end);
    assert Run(booted, last, end);
    RunAppend(s, BootSteps(id, want, evict), booted, last, end);
    steps := BootSteps(id, want, evict) + last;
  }

  // ---- restart ----

  /** What `reconcile` rebuilds from the containers it finds: (resources, still running) by sandbox id. Warm slots are
      removed, exited containers recorded as stopped, and running ones adopted without any admission check. */
  ghost function Restarted(limits: Limits, found: map<string, (Resources, bool)>): State {
    State(limits, true,
          map k | k in found && !IsWarm(k) && found[k].1 :: Reservation(found[k].0, true),
          map[], map[],
          map k | k in found && !IsWarm(k) :: if found[k].1 then RUNNING else STOPPED,
          map[], map[], {},
          set k | k in found && !IsWarm(k),
          set k | k in found && !IsWarm(k) && found[k].1)
  }

  /** A restarted worker owns its reservations again. It stays within its limits when every container it adopts was
      reserved before the restart; adoption itself would not notice otherwise. */
  lemma RestartRecovers(before: State, found: map<string, (Resources, bool)>)
    requires Admissible(before)
    requires forall k :: k in found && !IsWarm(k) && found[k].1 ==> k in before.res && before.res[k].resources == found[k].0
    ensures Owned(Restarted(before.limits, found)) && Admissible(Restarted(before.limits, found))
    ensures forall k :: Contained(Restarted(before.limits, found), k)
    ensures var s := Restarted(before.limits, found);
            && s.labels.Keys == (set k | k in found && !IsWarm(k))
            && forall k :: k in s.labels ==> s.labels[k] == if found[k].1 then RUNNING else STOPPED
  {
    var s := Restarted(before.limits, found);
    assert forall k :: Sound(s, k);
    LessKeepsCovers(before.limits, Held(s.res), Held(before.res));
  }

  /** What is found running and adopted. */
  function Adopted(found: map<string, (Resources, bool)>): map<string, Resources> {
    map k | k in found && !IsWarm(k) && found[k].1 :: found[k].0
  }

  /** The worker starts within its limits exactly when what it adopts fits them together; nothing else is asked. */
  lemma RestartKeepsLimitsIff(limits: Limits, found: map<string, (Resources, bool)>)
    ensures Owned(Restarted(limits, found))
    ensures Admissible(Restarted(limits, found)) <==> limits.Covers(Total(Adopted(found)))
  {
    var s := Restarted(limits, found);
    assert forall k :: Sound(s, k);
    assert Held(s.res) == Adopted(found);
  }

  /** Adoption can exceed the limits: a single running container larger than the worker now offers is enough. */
  lemma RestartMayExceedLimits()
    ensures exists limits: Limits, found :: limits.Covers(NOTHING) && !Admissible(Restarted(limits, found))
  {
    var limits := Limits(1, 1, None);
    var found := map["sbx_a" := (Resources(2, 1), true)];
    var s := Restarted(limits, found);
    assert WARM_PREFIX[0] != "sbx_a"[0];
    assert Held(s.res) == map[]["sbx_a" := Resources(2, 1)];
    TotalAdd(map[], "sbx_a", Resources(2, 1));
    assert !Admissible(s);
  }

  /** What is found running does run, and has the size that is reserved for it. */
  ghost predicate Finds(s: State, found: map<string, (Resources, bool)>) {
    forall k :: k in found && !IsWarm(k) && found[k].1 ==>
      k in s.up && (k in s.res ==> found[k].0 == s.res[k].resources)
  }

  /** A worker of a truthful runtime that restarts with its limits unchanged stays within them, if no container was up
      without a reservation; such a container can only be one with a create or a delete in flight. */
  lemma RestartKeepsLimits(start: State, steps: seq<Step>, s: State, found: map<string, (Resources, bool)>)
    requires Fresh(start) && HonestRun(start, steps, s) && Finds(s, found)
    requires forall k :: k in s.up && (k in s.creates || k in s.deleting) ==> k in s.res
    ensures Owned(Restarted(s.limits, found)) && Admissible(Restarted(s.limits, found))
  {
    HonestRunIsRun(start, steps, s);
    Started(start);
    RunKeeps(start, steps, s);
    forall k | k in found && !IsWarm(k) && found[k].1
      ensures k in s.res && s.res[k].resources == found[k].0
    {
      ContainersAreAccounted(start, steps, s, k);
    }
    RestartRecovers(s, found);
  }

  lemma Started(s: State)
    requires Fresh(s)
    ensures Owned(s) && Admissible(s)
  {
    assert forall k :: Sound(s, k);
    assert Held(s.res) == map[];
  }

  /** The boot of `a` fails with its container up. */
  ghost function FailedBoot(s: State, a: string): State {
    s.(labels := s.labels[a := FAILED], creates := s.creates[a := Discarding(true)], sent := s.sent + {a},
       up := s.up + {a})
  }

  lemma FailedBootRun(s: State, a: string, want: Resources) returns (evict: string)
    requires Owned(s) && a !in s.sent && !IsWarm(a) && CanReserve(s, want)
    ensures HonestRun(s, FailedSteps(a, want, evict), FailedBoot(s, a))
  {
    assert Sound(s, a);
    evict := BootRun(s, a, want);
    var s1 := Admitted(s, a, want);
    var s2 := s1.(up := s.up + {a});
    hide Owned, Sound, CanReserve, Arrive;
    assert Apply(s1, ContainerStarts(a)) == s2;
    assert Apply(s2, BootEnds(a, false)) == FailedBoot(s, a) by {
      assert s.res[a := Reservation(want, false)] - {a} == s.res;
      assert s.labels[a := CREATING][a := FAILED] == s.labels[a := FAILED];
      assert s.creates[a := Booting][a := Discarding(true)] == s.creates[a := Discarding(true)];
    }
    HonestThree(s, CreateArrives(a, want, None, evict), ContainerStarts(a), BootEnds(a, false));
  }

  function FailedSteps(a: string, want: Resources, evict: string): seq<Step> {
    [CreateArrives(a, want, None, evict), ContainerStarts(a), BootEnds(a, false)]
  }

  lemma HonestThree(s: State, a: Step, b: Step, c: Step)
    requires Enabled(s, a) && Enabled(Apply(s, a), b) && Enabled(Apply(Apply(s, a), b), c)
    requires Honest(s, a) && Honest(Apply(s, a), b) && Honest(Apply(Apply(s, a), b), c)
    ensures HonestRun(s, [a, b, c], Apply(Apply(Apply(s, a), b), c))
  {
    hide Apply, Enabled, Honest;
    var s2 := Apply(Apply(s, a), b);
    assert [c][1..] == [] && [b, c][1..] == [c] && [a, b, c][1..] == [b, c];
    assert HonestRun(s2, [c], Apply(s2, c));
    assert HonestRun(Apply(s, a), [b, c], Apply(s2, c));
  }

  lemma {:induction false} HonestAppend(s: State, a: seq<Step>, mid: State, b: seq<Step>, end: State)
    requires HonestRun(s, a, mid) && HonestRun(mid, b, end)
    ensures HonestRun(s, a + b, end)
    decreases |a|
  {
    if a == [] {
      assert a + b == b;
    } else {
      HonestAppend(Apply(s, a[0]), a[1..], mid, b, end);
      assert (a + b)[1..] == a[1..] + b;
    }
  }

  /** Without that it need not: a boot fails, the next create takes the room while the container is still being removed,
      and a restart finds and adopts both. No limit has changed and the runtime has told nothing but the truth. */
  lemma RestartDuringDiscardExceeds(s: State, a: string, b: string, want: Resources)
    returns (steps: seq<Step>, end: State, found: map<string, (Resources, bool)>)
    requires Fresh(s) && a != b && !IsWarm(a) && !IsWarm(b) && CanReserve(s, want)
    requires !s.limits.Covers(Unit(want).Plus(Unit(want)))
    ensures HonestRun(s, steps, end) && end.up == {a, b} && end.limits == s.limits
    ensures found == map[a := (want, true), b := (want, true)] && Finds(end, found)
    ensures !Admissible(Restarted(s.limits, found))
  {
    Started(s);
    var evict := FailedBootRun(s, a, want);
    var s1 := FailedBoot(s, a);
    HonestRunKeepsContained(s, FailedSteps(a, want, evict), s1, a);
    var evict1 := BootRun(s1, b, want);
    end := Booted(s1, b, want);
    found := map[a := (want, true), b := (want, true)];
    BootIsHonest(s1, b, want, evict1);
    steps := FailedSteps(a, want, evict) + BootSteps(b, want, evict1);
    HonestAppend(s, FailedSteps(a, want, evict), s1, BootSteps(b, want, evict1), end);
    TwoExceed(s.limits, a, b, want, found);
  }

  lemma BootIsHonest(s: State, id: string, want: Resources, evict: string)
    requires Enabled(s, CreateArrives(id, want, None, evict))
    requires Apply(s, CreateArrives(id, want, None, evict)) == Admitted(s, id, want)
    requires Enabled(Admitted(s, id, want), ContainerStarts(id))
    requires var started := Admitted(s, id, want).(up := s.up + {id});
             Enabled(started, BootEnds(id, true)) && Apply(started, BootEnds(id, true)) == Booted(s, id, want)
    ensures HonestRun(s, BootSteps(id, want, evict), Booted(s, id, want))
  {
    var s1 := Admitted(s, id, want);
    assert Apply(s1, ContainerStarts(id)) == s1.(up := s.up + {id});
    HonestThree(s, CreateArrives(id, want, None, evict), ContainerStarts(id), BootEnds(id, true));
  }

  lemma TwoExceed(limits: Limits, a: string, b: string, want: Resources, found: map<string, (Resources, bool)>)
    requires a != b && !IsWarm(a) && !IsWarm(b) && found == map[a := (want, true), b := (want, true)]
    requires !limits.Covers(Unit(want).Plus(Unit(want)))
    ensures !Admissible(Restarted(limits, found))
  {
    hide Total, Restarted, Admissible;
    RestartKeepsLimitsIff(limits, found);
    assert Adopted(found) == map[a := want][b := want];
    TotalAdd(map[a := want], b, want);
    TotalAdd(map[], a, want);
    assert map[][a := want] == map[a := want];
    TotalEmpty();
  }

  // ---- advertised capacity can be obtained ----

  /** The request fits once every parked slot is gone. */
  ghost predicate Obtainable(s: State, want: Resources) {
    s.limits.Fits(Total(Held(s.res - s.warm.Keys)), want)
  }

  /** With no slot booting, that is exactly fitting beside the allocation the health report advertises. */
  lemma ObtainableIsAdvertised(s: State, want: Resources)
    requires Owned(s) && s.boots == map[]
    ensures Obtainable(s, want) <==> s.limits.Fits(Total(HeldReal(s.res)), want)
  {
    forall k ensures k in Held(s.res - s.warm.Keys) <==> k in HeldReal(s.res) {
      assert Sound(s, k);
    }
    assert Held(s.res - s.warm.Keys) == HeldReal(s.res);
  }

  lemma FitsBesideLess(limits: Limits, part: map<string, Resources>, whole: map<string, Resources>, want: Resources)
    requires SubMap(part, whole) && limits.Fits(Total(whole), want)
    ensures limits.Fits(Total(part), want)
  {
    TotalMonotone(part, whole);
  }

  /** The turn that ends the loop: it admits or refuses, and decides exactly by `Obtainable`. */
  lemma LastTurn(s: State, id: string, want: Resources, evict: string)
    requires Owned(s) && s.open && !IsWarm(id) && id !in s.res
    requires CanReserve(s, want) || s.warm == map[]
    ensures var s' := TryCold(s, id, want, evict);
            && (id in s'.creates ==> !s'.creates[id].Evicting?)
            && (id in s'.res <==> Obtainable(s, want))
            && HeldReal(s'.res) == if Obtainable(s, want) then HeldReal(s.res)[id := want] else HeldReal(s.res)
  {
    if CanReserve(s, want) {
      FitsBesideLess(s.limits, Held(s.res - s.warm.Keys), Held(s.res), want);
      HeldUpdates(s.res, id, Reservation(want, false));
    } else {
      assert s.res - s.warm.Keys == s.res;
    }
  }

  /** Every other turn evicts one slot, which touches no sandbox and changes no later verdict. */
  lemma OtherTurn(s: State, id: string, want: Resources, evict: string)
    requires Owned(s) && evict in s.warm && !CanReserve(s, want)
    ensures var s' := TryCold(s, id, want, evict);
            Obtainable(s', want) == Obtainable(s, want) && HeldReal(s'.res) == HeldReal(s.res) && s'.warm == s.warm - {evict}
  {
    assert Sound(s, evict);
    assert s.res - s.warm.Keys == (s.res - {evict}) - (s.warm - {evict}).Keys;
    assert HeldReal(s.res - {evict}) == HeldReal(s.res);
  }

  /** The admission loop when nothing else runs between its evictions, whichever slots it picks: it ends, it admits
      exactly the requests that fit beside everything but the parked slots, and it takes nothing from a sandbox. */
  lemma {:induction false} LoopAdmitsIffObtainable(s: State, id: string, want: Resources, steps: seq<Step>, end: State)
    requires Owned(s) && s.open && id in s.creates && s.creates[id] == Evicting(want)
    requires forall i :: 0 <= i < |steps| ==> steps[i].EvictEnds? && steps[i].id == id
    requires Run(s, steps, end) && !(id in end.creates && end.creates[id].Evicting?)
    ensures id in end.res <==> Obtainable(s, want)
    ensures HeldReal(end.res) == if Obtainable(s, want) then HeldReal(s.res)[id := want] else HeldReal(s.res)
    decreases |steps|
  {
    hide Total;
    assert Sound(s, id);
    var evict := steps[0].evict;
    var s' := TryCold(s, id, want, evict);
    if CanReserve(s, want) || s.warm == map[] {
      LastTurn(s, id, want, evict);
      StopsThere(s', id, steps[1..], end);
    } else {
      OtherTurn(s, id, want, evict);
      StepKeepsOwned(s, steps[0]);
      LoopAdmitsIffObtainable(s', id, want, steps[1..], end);
    }
  }

  /** The loop takes at most one turn more than there are parked slots. */
  lemma {:induction false} LoopEnds(s: State, id: string, steps: seq<Step>, end: State, slots: set<string>)
    requires id in s.creates && s.creates[id].Evicting? && s.warm.Keys == slots
    requires forall i :: 0 <= i < |steps| ==> steps[i].EvictEnds? && steps[i].id == id
    requires Run(s, steps, end)
    ensures |steps| <= |slots| + 1
    decreases |steps|
  {
    hide Held, Total;
    if steps != [] {
      var s' := TryCold(s, id, s.creates[id].want, steps[0].evict);
      if id in s'.creates && s'.creates[id].Evicting? {
        LoopEnds(s', id, steps[1..], end, slots - {steps[0].evict});
      } else {
        StopsThere(s', id, steps[1..], end);
      }
    }
  }

  lemma StopsThere(s: State, id: string, steps: seq<Step>, end: State)
    requires !(id in s.creates && s.creates[id].Evicting?)
    requires forall i :: 0 <= i < |steps| ==> steps[i].EvictEnds? && steps[i].id == id
    requires Run(s, steps, end)
    ensures steps == [] && end == s
  {
  }

  /** Inside the loop already, as after an adoption that failed: the request is admitted exactly when it fits beside the
      reported allocation. */
  lemma FallbackAdmitsIffAdvertised(s: State, id: string, want: Resources, steps: seq<Step>, end: State)
    requires Owned(s) && s.open && s.boots == map[] && id in s.creates && s.creates[id] == Evicting(want)
    requires forall i :: 0 <= i < |steps| ==> steps[i].EvictEnds? && steps[i].id == id
    requires Run(s, steps, end) && !(id in end.creates && end.creates[id].Evicting?)
    ensures id in end.res <==> s.limits.Fits(Total(HeldReal(s.res)), want)
  {
    LoopAdmitsIffObtainable(s, id, want, steps, end);
    ObtainableIsAdvertised(s, want);
  }

  /** A cold arrival: its first turn, and the loop behind it. */
  lemma ColdAdmitsIffObtainable(s: State, id: string, want: Resources, evict: string, steps: seq<Step>, end: State)
    requires Owned(s) && s.open && id in s.sent && !IsWarm(id) && !Known(s, id) && id !in s.res
    requires s.warm != map[] ==> evict in s.warm
    requires forall i :: 0 <= i < |steps| ==> steps[i].EvictEnds? && steps[i].id == id
    requires Run(TryCold(s, id, want, evict), steps, end) && !(id in end.creates && end.creates[id].Evicting?)
    ensures id in end.res <==> Obtainable(s, want)
    ensures HeldReal(end.res) == if Obtainable(s, want) then HeldReal(s.res)[id := want] else HeldReal(s.res)
  {
    var s' := TryCold(s, id, want, evict);
    if CanReserve(s, want) || s.warm == map[] {
      LastTurn(s, id, want, evict);
      StopsThere(s', id, steps, end);
    } else {
      OtherTurn(s, id, want, evict);
      TryColdKeepsOwned(s, id, want, evict);
      LoopAdmitsIffObtainable(s', id, want, steps, end);
    }
  }

  /** A claim that can take the request fits it in place of its slot, so it fits without any slot. */
  lemma ClaimAdmitsObtainable(s: State, id: string, want: Resources, slot: string)
    requires Owned(s) && slot in s.warm && !IsWarm(id) && id !in s.res && CanReserve(s.(res := s.res - {slot}), want)
    ensures Obtainable(s, want)
    ensures HeldReal((s.res - {slot})[id := Reservation(want, false)]) == HeldReal(s.res)[id := want]
  {
    assert Sound(s, slot);
    FitsBesideLess(s.limits, Held(s.res - s.warm.Keys), Held(s.res - {slot}), want);
    assert HeldReal(s.res - {slot}) == HeldReal(s.res);
    HeldUpdates(s.res - {slot}, id, Reservation(want, false));
  }

  lemma NewIsIdle(s: State, id: string)
    requires Owned(s) && id !in s.sent && !IsWarm(id)
    ensures !Known(s, id) && id !in s.res
    ensures Owned(s.(sent := s.sent + {id}))
  {
    assert Sound(s, id);
    forall k ensures Sound(s.(sent := s.sent + {id}), k) {
      assert Sound(s, k);
    }
  }

  lemma ArrivalAdmitsIffObtainable(s: State, id: string, want: Resources, claim: Option<string>, evict: string,
                                   steps: seq<Step>, end: State)
    requires Owned(s) && s.open && Enabled(s, CreateArrives(id, want, claim, evict))
    requires forall i :: 0 <= i < |steps| ==> steps[i].EvictEnds? && steps[i].id == id
    requires Run(Arrive(s, id, want, claim, evict), steps, end) && !(id in end.creates && end.creates[id].Evicting?)
    ensures id in end.res <==> Obtainable(s, want)
    ensures HeldReal(end.res) == if id in end.res then HeldReal(s.res)[id := want] else HeldReal(s.res)
  {
    NewIsIdle(s, id);
    var s1 := s.(sent := s.sent + {id});
    hide Owned, TryCold, Obtainable, HeldReal;
    SameObtainable(s, s1, want);
    if claim.Some? && CanReserve(s1.(res := s1.res - {claim.value}), want) {
      ClaimAdmitsObtainable(s1, id, want, claim.value);
      StopsThere(Arrive(s, id, want, claim, evict), id, steps, end);
    } else {
      if claim.Some? {
        FailedSwapRestores(s1, claim.value);
      }
      ColdAdmitsIffObtainable(s1, id, want, evict, steps, end);
    }
  }

  lemma SameObtainable(s: State, s1: State, want: Resources)
    requires s1.limits == s.limits && s1.res == s.res && s1.warm == s.warm
    ensures Obtainable(s1, want) == Obtainable(s, want)
  {
  }

  /** Advertised free capacity is real: an arriving request, with a slot to claim or without, is admitted if and only
      if it fits beside the allocation reported before it came, as long as the worker is open, no slot is mid-boot and
      no other coroutine runs between its evictions. What the other sandboxes hold stays as it is. */
  lemma AdvertisedCapacityIsObtainable(s: State, id: string, want: Resources, claim: Option<string>, evict: string,
                                       steps: seq<Step>, end: State)
    requires Owned(s) && s.open && s.boots == map[] && Enabled(s, CreateArrives(id, want, claim, evict))
    requires forall i :: 0 <= i < |steps| ==> steps[i].EvictEnds? && steps[i].id == id
    requires Run(Apply(s, CreateArrives(id, want, claim, evict)), steps, end)
    requires !(id in end.creates && end.creates[id].Evicting?)
    ensures id in end.res <==> s.limits.Fits(Total(HeldReal(s.res)), want)
    ensures HeldReal(end.res) == if id in end.res then HeldReal(s.res)[id := want] else HeldReal(s.res)
  {
    hide Arrive, Owned, Run;
    ArrivalAdmitsIffObtainable(s, id, want, claim, evict, steps, end);
    ObtainableIsAdvertised(s, want);
  }

  // ---- what a step does to the real allocation ----

  /** The request a step may admit, if any. */
  ghost function Asked(s: State, step: Step): Option<(string, Resources)>
    requires Enabled(s, step)
  {
    match step
    case CreateArrives(id, want, _, _) => Some((id, want))
    case EvictEnds(id, _) => Some((id, s.creates[id].want))
    case _ => None
  }

  lemma ColdReservesAsked(s: State, id: string, want: Resources, evict: string, k: string)
    requires k in HeldReal(TryCold(s, id, want, evict).res)
    ensures var held := HeldReal(TryCold(s, id, want, evict).res);
            (k in HeldReal(s.res) && HeldReal(s.res)[k] == held[k]) || (k == id && held[k] == want)
  {
    hide CanReserve;
    if CanReserve(s, want) {
    } else if s.warm != map[] {
    } else {
    }
  }

  /** A real reservation is there because it was there before or because this step admitted it. */
  lemma RealReservationsAreAsked(s: State, step: Step, k: string)
    requires Owned(s) && Enabled(s, step) && k in HeldReal(Apply(s, step).res)
    ensures (k in HeldReal(s.res) && HeldReal(s.res)[k] == HeldReal(Apply(s, step).res)[k])
            || (Asked(s, step).Some? && Asked(s, step).value == (k, HeldReal(Apply(s, step).res)[k]))
  {
    hide CanReserve, TryCold, SwapBack;
    match step
    case CreateArrives(id, want, claim, evict) =>
      ArrivalReservesAsked(s, id, want, claim, evict, k);
    case EvictEnds(id, evict) =>
      ColdReservesAsked(s, id, s.creates[id].want, evict, k);
    case WarmBootStarts(slot, want) =>
    case _ =>
      OtherStepsReserveNothing(s, step);
      assert k in Held(Apply(s, step).res);
  }

  lemma ArrivalReservesAsked(s: State, id: string, want: Resources, claim: Option<string>, evict: string, k: string)
    requires Owned(s) && Enabled(s, CreateArrives(id, want, claim, evict))
    requires k in HeldReal(Arrive(s, id, want, claim, evict).res)
    ensures var held := HeldReal(Arrive(s, id, want, claim, evict).res);
            (k in HeldReal(s.res) && HeldReal(s.res)[k] == held[k]) || (k == id && held[k] == want)
  {
    hide CanReserve, TryCold, Sound;
    var s1 := s.(sent := s.sent + {id});
    if s.open {
      if claim.Some? {
        FailedSwapRestores(s, claim.value);
        if !CanReserve(s1.(res := s1.res - {claim.value}), want) {
          ColdReservesAsked(SwapBack(s1, claim.value), id, want, evict, k);
        }
      } else {
        ColdReservesAsked(s1, id, want, evict, k);
      }
    }
  }
}
