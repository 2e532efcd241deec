/** What becomes of a create, a delete and a warm boot on the worker, told by whole runs of their own steps, and which
    steps stand behind a sandbox's label. */
module WorkerOutcomes {
  import opened Resources
  import opened WorkerCapacity
  import opened WorkerProtocol
  import opened WorkerSafety

  // ---- claims ----

  /** An arriving create takes the slot it claims exactly when it fits in the slot's place. */
  lemma ClaimTakesSlotIff(s: State, id: string, want: Resources, slot: string, evict: string)
    requires Owned(s) && s.open && Enabled(s, CreateArrives(id, want, Some(slot), evict))
    ensures var t := Apply(s, CreateArrives(id, want, Some(slot), evict));
            && (id in t.creates && t.creates[id] == Claiming(slot, want) <==>
                s.limits.Fits(Total(Held(s.res - {slot})), want))
            && (id in t.creates && t.creates[id].Claiming? ==>
                && slot !in t.warm && slot !in t.res && HeldReal(t.res) == HeldReal(s.res)[id := want])
  {
    hide Total, Held;
    NewIsIdle(s, id);
    var s1 := s.(sent := s.sent + {id});
    var freed := s1.(res := s1.res - {slot});
    assert CanReserve(freed, want) <==> s.limits.Fits(Total(Held(s.res - {slot})), want);
    if CanReserve(freed, want) {
      assert Sound(s, slot);
      ClaimAdmitsObtainable(s1, id, want, slot);
    } else {
      FailedSwapRestores(s1, slot);
      ColdNeverClaims(s1, id, want, evict);
    }
  }

  lemma ColdNeverClaims(s: State, id: string, want: Resources, evict: string)
    ensures var t := TryCold(s, id, want, evict); id in t.creates ==> !t.creates[id].Claiming?
  {
    hide CanReserve;
  }

  /** Once the runtime has adopted it, the sandbox runs in the slot's container, with its own reservation in place of the
      slot's. */
  lemma AdoptedClaimRuns(s: State, id: string, want: Resources, slot: string, evict: string)
    requires Owned(s) && s.open && Enabled(s, CreateArrives(id, want, Some(slot), evict))
    requires s.limits.Fits(Total(Held(s.res - {slot})), want)
    ensures var t := Apply(s, CreateArrives(id, want, Some(slot), evict));
            && Enabled(t, ClaimEnds(id, true))
            && var u := Apply(t, ClaimEnds(id, true));
               && u.labels == s.labels[id := RUNNING] && u.up == s.up + {id} && u.creates == s.creates
               && u.res == (s.res - {slot})[id := Reservation(want, true)] && u.warm == s.warm - {slot}
  {
    hide Total, Held, TryCold, SwapBack;
    NewIsIdle(s, id);
    var freed := s.(sent := s.sent + {id}, res := s.res - {slot});
    assert CanReserve(freed, want);
    var t := Apply(s, CreateArrives(id, want, Some(slot), evict));
    assert t.creates == s.creates[id := Claiming(slot, want)];
    assert s.creates[id := Claiming(slot, want)] - {id} == s.creates;
    assert t.res == (s.res - {slot})[id := Reservation(want, false)];
  }

  /** When the runtime cannot adopt the slot, the create goes on as a cold one. Undisturbed it ends admitted, exactly as
      it would have been for fitting beside what real sandboxes held before it came, and none of these loses anything. */
  lemma FailedAdoptionAdmitsIffAdvertised(s: State, id: string, want: Resources, claim: Option<string>, evict: string,
                                          steps: seq<Step>, end: State)
    requires Owned(s) && s.open && s.boots == map[] && Enabled(s, CreateArrives(id, want, claim, evict))
    requires Enabled(Apply(s, CreateArrives(id, want, claim, evict)), ClaimEnds(id, false))
    requires forall i :: 0 <= i < |steps| ==> steps[i].EvictEnds? && steps[i].id == id
    requires Run(Apply(s, CreateArrives(id, want, claim, evict)), [ClaimEnds(id, false)] + steps, end)
    requires !(id in end.creates && end.creates[id].Evicting?)
    ensures id in end.creates && end.creates[id] == Booting && id in end.labels && end.labels[id] == CREATING
    ensures id in end.res && end.res[id] == Reservation(want, false)
    ensures s.limits.Fits(Total(HeldReal(s.res)), want)
    ensures HeldReal(end.res) == HeldReal(s.res)[id := want]
  {
    var t := Apply(s, CreateArrives(id, want, claim, evict));
    var u := Apply(t, ClaimEnds(id, false));
    SwappedAndReleased(s, id, want, claim, evict);
    StepKeepsOwned(s, CreateArrives(id, want, claim, evict));
    StepKeepsOwned(t, ClaimEnds(id, false));
    assert ([ClaimEnds(id, false)] + steps)[1..] == steps;
    assert Run(u, steps, end);
    ObtainableIsAdvertised(s, want);
    hide Owned, Apply, HeldReal, Obtainable, CanReserve, Run, Total;
    LoopAdmitsIffObtainable(u, id, want, steps, end);
    LoopBoots(u, id, want, steps, end);
  }

  lemma SwappedAndReleased(s: State, id: string, want: Resources, claim: Option<string>, evict: string)
    requires Owned(s) && s.open && Enabled(s, CreateArrives(id, want, claim, evict))
    requires Enabled(Apply(s, CreateArrives(id, want, claim, evict)), ClaimEnds(id, false))
    ensures var u := Apply(Apply(s, CreateArrives(id, want, claim, evict)), ClaimEnds(id, false));
            && u.open && u.limits == s.limits && id in u.creates && u.creates[id] == Evicting(want) && id !in u.res
            && HeldReal(u.res) == HeldReal(s.res) && Obtainable(s, want) && Obtainable(u, want)
  {
    hide TryCold;
    NewIsIdle(s, id);
    var s1 := s.(sent := s.sent + {id});
    ColdNeverClaims(s1, id, want, evict);
    if claim.Some? {
      var slot := claim.value;
      FailedSwapRestores(s1, slot);
      assert CanReserve(s1.(res := s1.res - {slot}), want);
      ClaimAdmitsObtainable(s1, id, want, slot);
      SameObtainable(s, s1, want);
      assert Sound(s, slot);
      var u := Apply(Apply(s, CreateArrives(id, want, claim, evict)), ClaimEnds(id, false));
      assert u.res == s.res - {slot} && u.warm == s.warm - {slot};
      assert u.res - u.warm.Keys == s.res - s.warm.Keys;
    }
  }

  /** The undisturbed loop ends with the boot under way, or with the create gone. */
  lemma {:induction false} LoopBoots(s: State, id: string, want: Resources, steps: seq<Step>, end: State)
    requires Owned(s) && id in s.creates && s.creates[id] == Evicting(want)
    requires forall i :: 0 <= i < |steps| ==> steps[i].EvictEnds? && steps[i].id == id
    requires Run(s, steps, end) && !(id in end.creates && end.creates[id].Evicting?)
    ensures if id in end.res then id in end.creates && end.creates[id] == Booting && id in end.labels
                                  && end.labels[id] == CREATING && end.res[id] == Reservation(want, false)
            else id !in end.creates && id !in end.labels
    decreases |steps|
  {
    assert Sound(s, id);
    hide CanReserve, Held, Total;
    var s' := TryCold(s, id, want, steps[0].evict);
    if id in s'.creates && s'.creates[id].Evicting? {
      StepKeepsOwned(s, steps[0]);
      LoopBoots(s', id, want, steps[1..], end);
    } else {
      StopsThere(s', id, steps[1..], end);
    }
  }

  // ---- a worker that is closed ----

  /** A draining worker, or one short of disk, turns an arriving create away and evicts nothing for it. */
  lemma ClosedWorkerTurnsAway(s: State, step: Step)
    requires !s.open && Enabled(s, step) && step.CreateArrives?
    ensures var t := Apply(s, step);
            t.res == s.res && t.warm == s.warm && t.creates == s.creates && t.labels == s.labels && t.up == s.up
  {
  }

  /** As long as it stays closed, no sandbox gets a reservation it did not have. */
  lemma {:induction false} ClosedWorkerAdmitsNothing(s: State, steps: seq<Step>, end: State)
    requires Owned(s) && !s.open && Run(s, steps, end) && forall i :: 0 <= i < |steps| ==> !steps[i].OpenChanges?
    ensures SubMap(HeldReal(end.res), HeldReal(s.res))
    decreases |steps|
  {
    if steps != [] {
      var next := Apply(s, steps[0]);
      StepKeepsOwned(s, steps[0]);
      ClosedStepAdmitsNothing(s, steps[0]);
      hide Owned, Apply, Enabled, HeldReal;
      ClosedWorkerAdmitsNothing(next, steps[1..], end);
    }
  }

  lemma ClosedStepAdmitsNothing(s: State, step: Step)
    requires Owned(s) && !s.open && Enabled(s, step) && !step.OpenChanges?
    ensures !Apply(s, step).open && SubMap(HeldReal(Apply(s, step).res), HeldReal(s.res))
  {
    hide Total, SwapBack, Owned;
    if step.CreateArrives? {
      ClosedWorkerTurnsAway(s, step);
    } else if step.EvictEnds? {
      assert SubMap(HeldReal(Apply(s, step).res), HeldReal(s.res));
    } else if !step.WarmBootStarts? {
      OtherStepsReserveNothing(s, step);
      LessIsLessReal(Apply(s, step).res, s.res);
    }
  }

  lemma LessIsLessReal(part: Reservations, whole: Reservations)
    requires SubMap(Held(part), Held(whole))
    ensures SubMap(HeldReal(part), HeldReal(whole))
  {
    forall k | k in HeldReal(part)
      ensures k in HeldReal(whole) && HeldReal(whole)[k] == HeldReal(part)[k]
    {
      assert k in Held(part);
    }
  }

  // ---- creates and deletes from end to end ----

  /** A boot that fails leaves no trace but the id, once its container has been removed. */
  lemma FailedBootLeavesNoTrace(s: State, id: string, want: Resources) returns (steps: seq<Step>)
    requires Owned(s) && id !in s.sent && !IsWarm(id) && id !in s.up && CanReserve(s, want)
    ensures steps != [] && steps[|steps| - 1] == DiscardEnds(id, true) && BootEnds(id, false) in steps
    ensures Run(s, steps, s.(sent := s.sent + {id}))
  {
    var evict := FailedBootRun(s, id, want);
    var failed, end := FailedBoot(s, id), s.(sent := s.sent + {id});
    assert Sound(s, id);
    hide Owned, Sound, CanReserve;
    HonestRunIsRun(s, FailedSteps(id, want, evict), failed);
    assert Apply(failed, DiscardEnds(id, true)) == end by {
      assert s.labels[id := FAILED] - {id} == s.labels;
      assert s.creates[id := Discarding(true)] - {id} == s.creates;
      assert s.up + {id} - {id} == s.up;
    }
    assert [DiscardEnds(id, true)][1..] == [];
    assert Run(failed, [DiscardEnds(id, true)], end);
    RunAppend(s, FailedSteps(id, want, evict), failed, [DiscardEnds(id, true)], end);
    steps := FailedSteps(id, want, evict) + [DiscardEnds(id, true)];
    assert steps[2] == BootEnds(id, false);
  }

  function DeleteSteps(id: string, final: Label): seq<Step> {
    [DeleteArrives(id), DeleteRemoves(id), DeleteEnds(id, final)]
  }

  ghost function Deleted(s: State, id: string, final: Label): State {
    s.(labels := s.labels[id := final], res := s.res - {id}, up := s.up - {id})
  }

  lemma DeleteRun(s: State, id: string, final: Label)
    requires id in s.labels && !s.labels[id].Ended() && id !in s.deleting && final in {STOPPED, EXPIRED}
    ensures Run(s, DeleteSteps(id, final), Deleted(s, id, final))
  {
    var s1 := Apply(s, DeleteArrives(id));
    var s2 := Apply(s1, DeleteRemoves(id));
    assert s.deleting[id := false][id := true] - {id} == s.deleting;
    assert s.labels[id := STOPPING][id := final] == s.labels[id := final];
    assert Apply(s2, DeleteEnds(id, final)) == Deleted(s, id, final);
    RunThree(s, DeleteArrives(id), DeleteRemoves(id), DeleteEnds(id, final));
  }

  /** A delete ends a running sandbox with the label it was asked for, and nothing of it is held or runs any more. */
  lemma DeleteEndsSandbox(s: State, id: string, final: Label)
    requires Owned(s) && id in s.labels && s.labels[id] == RUNNING && final in {STOPPED, EXPIRED}
    ensures Run(s, DeleteSteps(id, final), s.(labels := s.labels[id := final], res := s.res - {id}, up := s.up - {id}))
  {
    assert Sound(s, id);
    hide Owned, Sound, Run;
    DeleteRun(s, id, final);
  }

  /** The same for a sandbox that is still booting: the boot then finds it ended, and its container is removed. */
  lemma DeleteOvertakesBoot(s: State, id: string, final: Label)
    requires Owned(s) && id in s.creates && s.creates[id] == Booting && id in s.labels && s.labels[id] == CREATING
    requires id !in s.deleting && final in {STOPPED, EXPIRED}
    ensures Run(s, DeleteSteps(id, final) + [BootEnds(id, true), DiscardEnds(id, true)],
                s.(labels := s.labels[id := final], res := s.res - {id}, creates := s.creates - {id}, up := s.up - {id}))
  {
    hide Owned, Run;
    DeleteRun(s, id, final);
    var s3 := Deleted(s, id, final);
    OvertakenBoot(s3, id);
    var end := s3.(creates := s3.creates - {id});
    RunAppend(s, DeleteSteps(id, final), s3, [BootEnds(id, true), DiscardEnds(id, true)], end);
  }

  lemma OvertakenBoot(s: State, id: string)
    requires id in s.creates && s.creates[id] == Booting && id in s.labels && s.labels[id].Ended()
    requires id !in s.res && id !in s.up
    ensures Run(s, [BootEnds(id, true), DiscardEnds(id, true)], s.(creates := s.creates - {id}))
  {
    var s1 := s.(creates := s.creates[id := Discarding(false)]);
    assert s.res - {id} == s.res && s.up - {id} == s.up;
    assert Apply(s, BootEnds(id, true)) == s1;
    assert s1.creates - {id} == s.creates - {id};
    var steps := [BootEnds(id, true), DiscardEnds(id, true)];
    assert steps[1..] == [DiscardEnds(id, true)] && steps[1..][1..] == [];
    assert Run(s1, steps[1..], s.(creates := s.creates - {id}));
  }

  /** A slot is parked exactly when it has room and boots; otherwise nothing changes. */
  lemma WarmBootParksIff(s: State, slot: string, want: Resources, ok: bool)
    requires Enabled(s, WarmBootStarts(slot, want))
    ensures var t := Apply(s, WarmBootStarts(slot, want));
            if s.open && s.limits.Fits(Total(Held(s.res)), want) then
              && Enabled(t, WarmBootEnds(slot, ok))
              && Apply(t, WarmBootEnds(slot, ok)) ==
                 if ok then s.(warm := s.warm[slot := want], res := s.res[slot := Reservation(want, true)]) else s
            else t == s
  {
    hide Total, Held;
    var t := Apply(s, WarmBootStarts(slot, want));
    if s.open && s.limits.Fits(Total(Held(s.res)), want) {
      assert s.boots[slot := want] - {slot} == s.boots;
      assert s.res[slot := Reservation(want, false)] - {slot} == s.res;
    }
  }

  /** An inspection that finds a container exited ends only a sandbox that is running: one that a delete is holding, or
      that has ended, stays as it is. */
  lemma InspectionEndsOnlyRunning(s: State, id: string, running: bool)
    requires Owned(s) && Enabled(s, InspectEnds(id, true, running))
    ensures var t := Apply(s, InspectEnds(id, true, running));
            if !running && id in s.labels && s.labels[id] == RUNNING
            then t == s.(labels := s.labels[id := STOPPED], res := s.res - {id}) else t == s
  {
    assert Sound(s, id);
  }

  // ---- what stands behind a label ----

  /** The steps that can have given `k` its label. */
  predicate Explains(steps: seq<Step>, k: string, l: Label) {
    match l
    case CREATING => true
    case RUNNING => BootEnds(k, true) in steps || ClaimEnds(k, true) in steps
    case STOPPING => DeleteArrives(k) in steps
    case STOPPED => DeleteEnds(k, STOPPED) in steps || InspectEnds(k, true, false) in steps
    case EXPIRED => DeleteEnds(k, EXPIRED) in steps
    case FAILED => BootEnds(k, false) in steps
    case LOST => InspectEnds(k, false, true) in steps || InspectEnds(k, false, false) in steps
  }

  lemma ColdLabels(s: State, id: string, want: Resources, evict: string, k: string)
    ensures var l := TryCold(s, id, want, evict).labels;
            k in l ==> (k in s.labels && s.labels[k] == l[k]) || l[k] == CREATING
  {
    hide CanReserve;
    if CanReserve(s, want) {
    } else if s.warm != map[] {
    } else {
    }
  }

  lemma CreateStepExplains(s: State, step: Step, k: string)
    requires Owned(s) && Enabled(s, step) && (step.CreateArrives? || step.EvictEnds?) && k in Apply(s, step).labels
    ensures (k in s.labels && s.labels[k] == Apply(s, step).labels[k]) || Apply(s, step).labels[k] == CREATING
  {
    hide CanReserve, TryCold, Owned;
    match step
    case CreateArrives(id, want, claim, evict) =>
      var s1 := s.(sent := s.sent + {id});
      ColdLabels(s1, id, want, evict, k);
      if claim.Some? {
        ColdLabels(SwapBack(s1, claim.value), id, want, evict, k);
      }
    case EvictEnds(id, evict) => ColdLabels(s, id, s.creates[id].want, evict, k);
  }

  /** `k` got the label in the step. */
  predicate Gives(step: Step, k: string, l: Label) {
    match step
    case ClaimEnds(id, adopted) => id == k && adopted && l == RUNNING
    case BootEnds(id, ok) => id == k && l == if ok then RUNNING else FAILED
    case DeleteArrives(id) => id == k && l == STOPPING
    case DeleteEnds(id, final) => id == k && l == final
    case InspectEnds(id, present, running) => id == k && ((!present && l == LOST) || (present && !running && l == STOPPED))
    case _ => false
  }

  /** `k` has the label it had, or the step gave it. */
  predicate Relabelled(was: map<string, Label>, now: map<string, Label>, step: Step, k: string) {
    k in now ==> (k in was && was[k] == now[k]) || Gives(step, k, now[k])
  }

  lemma ClaimGives(s: State, id: string, adopted: bool, k: string)
    requires id in s.creates && s.creates[id].Claiming?
    ensures Relabelled(s.labels, EndClaim(s, id, adopted).labels, ClaimEnds(id, adopted), k)
  {
  }

  lemma BootGives(s: State, id: string, ok: bool, k: string)
    ensures Relabelled(s.labels, EndBoot(s, id, ok).labels, BootEnds(id, ok), k)
  {
  }

  lemma DiscardGives(s: State, id: string, removed: bool, k: string)
    requires id in s.creates && s.creates[id].Discarding?
    ensures Relabelled(s.labels, EndDiscard(s, id, removed).labels, DiscardEnds(id, removed), k)
  {
  }

  lemma DeleteGives(s: State, id: string, final: Label, k: string)
    ensures Relabelled(s.labels, EndDelete(s, id, final).labels, DeleteEnds(id, final), k)
  {
  }

  lemma InspectGives(s: State, id: string, present: bool, running: bool, k: string)
    ensures Relabelled(s.labels, EndInspect(s, id, present, running).labels, InspectEnds(id, present, running), k)
  {
  }

  lemma OtherStepGives(s: State, step: Step, k: string)
    requires Enabled(s, step) && !step.CreateArrives? && !step.EvictEnds?
    ensures Relabelled(s.labels, Apply(s, step).labels, step, k)
  {
    hide CanReserve, Commit, EndClaim, EndBoot, EndDiscard, EndDelete, EndInspect;
    match step
    case ClaimEnds(id, adopted) => ClaimGives(s, id, adopted, k);
    case BootEnds(id, ok) => BootGives(s, id, ok, k);
    case DiscardEnds(id, removed) => DiscardGives(s, id, removed, k);
    case DeleteEnds(id, final) => DeleteGives(s, id, final, k);
    case InspectEnds(id, present, running) => InspectGives(s, id, present, running, k);
    case _ =>
  }

  lemma GivesExplains(s: State, step: Step, k: string, l: Label)
    requires Enabled(s, step) && Gives(step, k, l)
    ensures Explains([step], k, l)
  {
    hide CanReserve;
    assert step in [step];
  }

  lemma StepExplains(s: State, step: Step, k: string)
    requires Owned(s) && Enabled(s, step) && k in Apply(s, step).labels
    ensures (k in s.labels && s.labels[k] == Apply(s, step).labels[k]) || Explains([step], k, Apply(s, step).labels[k])
  {
    hide Apply, Owned, Enabled;
    if step.CreateArrives? || step.EvictEnds? {
      CreateStepExplains(s, step, k);
    } else {
      OtherStepGives(s, step, k);
      if Gives(step, k, Apply(s, step).labels[k]) {
        GivesExplains(s, step, k, Apply(s, step).labels[k]);
      }
    }
  }

  lemma ExplainsMore(a: seq<Step>, b: seq<Step>, k: string, l: Label)
    requires Explains(a, k, l) || Explains(b, k, l)
    ensures Explains(a + b, k, l)
  {
  }

  lemma {:induction false} RunExplains(past: seq<Step>, s: State, steps: seq<Step>, end: State, k: string)
    requires Owned(s) && Run(s, steps, end) && (k in s.labels ==> Explains(past, k, s.labels[k]))
    ensures k in end.labels ==> Explains(past + steps, k, end.labels[k])
    decreases |steps|
  {
    if steps == [] {
      assert past + steps == past;
    } else {
      var next := Apply(s, steps[0]);
      StepKeepsOwned(s, steps[0]);
      if k in next.labels {
        StepExplains(s, steps[0], k);
        ExplainsMore(past, [steps[0]], k, next.labels[k]);
      }
      hide Owned, Apply, Enabled, Explains;
      RunExplains(past + [steps[0]], next, steps[1..], end, k);
      assert past + [steps[0]] + steps[1..] == past + steps;
    }
  }

  /** Over every run from a fresh worker: a sandbox runs because its boot or its adoption went well, failed because its
      boot did, expired because a delete was asked to end it so, stopped because of a delete or because its container
      was found exited, and is lost because an inspection did not find it. */
  lemma LabelsAreExplained(start: State, steps: seq<Step>, s: State, k: string)
    requires Fresh(start) && Run(start, steps, s) && k in s.labels
    ensures match s.labels[k]
            case CREATING => true
            case RUNNING => BootEnds(k, true) in steps || ClaimEnds(k, true) in steps
            case STOPPING => DeleteArrives(k) in steps
            case STOPPED => DeleteEnds(k, STOPPED) in steps || InspectEnds(k, true, false) in steps
            case EXPIRED => DeleteEnds(k, EXPIRED) in steps
            case FAILED => BootEnds(k, false) in steps
            case LOST => InspectEnds(k, false, true) in steps || InspectEnds(k, false, false) in steps
  {
    Started(start);
    RunExplains([], start, steps, s, k);
    assert [] + steps == steps;
  }
}
