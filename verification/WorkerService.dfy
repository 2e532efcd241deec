/** The worker's coroutines as they are written (worker/service.py): each method is the code one coroutine runs between
    two suspensions, and is proved to be a step of the state machine in WorkerProtocol. */
module WorkerService {
  import opened Resources
  import opened WorkerCapacity
  import opened WorkerProtocol

  /** What is baked into a container when it is created and must match before a slot can be claimed. */
  datatype Profile = Profile(image: string, network: string, user: Option<string>, workdir: string,
                             readOnlyRoot: bool, tmpfs: Option<int>, keepalive: seq<string>)
  datatype Spec = Spec(profile: Profile, resources: Resources)

  class WorkerService {
    const capacity: CapacityManager
    var sandboxes: map<string, Label>
    var warm: map<string, Spec>     // parked slots ...
    var warmOrder: seq<string>      // ... in the order they were parked

    // The coroutines in flight and what they hold in local variables.
    ghost var creates: map<string, Create>
    ghost var boots: map<string, Resources>
    ghost var deleting: map<string, bool>
    ghost var inspecting: set<string>
    ghost var sent: set<string>
    ghost var up: set<string>

    constructor (capacity: CapacityManager)
      ensures this.capacity == capacity && Valid()
      ensures Model() == State(capacity.Bounds(), capacity.Open(), capacity.reservations,
                               map[], map[], map[], map[], map[], {}, {}, {})
    {
      this.capacity := capacity;
      sandboxes, warm, warmOrder := map[], map[], [];
      creates, boots, deleting, inspecting, sent, up := map[], map[], map[], {}, {}, {};
      new;
      assert Parked(warm) == map[];
    }

    /** The slot list mirrors the slot map, without repetition. */
    ghost predicate Valid()
      reads this`warm, this`warmOrder
    {
      && (forall k :: k in warmOrder <==> k in warm)
      && (forall i, j :: 0 <= i < j < |warmOrder| ==> warmOrder[i] != warmOrder[j])
    }

    ghost function Model(): State
      reads this, capacity
    {
      State(capacity.Bounds(), capacity.Open(), capacity.reservations, Parked(warm), boots, sandboxes, creates, deleting,
            inspecting, sent, up)
    }

    /** The first parked slot whose profile matches. */
    method FindSlot(wanted: Profile) returns (slot: Option<string>)
      requires Valid()
      ensures slot.None? ==> forall k :: k in warm ==> warm[k].profile != wanted
      ensures slot.Some? ==> slot.value in warm && warm[slot.value].profile == wanted
      ensures slot.Some? ==> exists i :: 0 <= i < |warmOrder| && warmOrder[i] == slot.value
                                         && forall j :: 0 <= j < i ==> warm[warmOrder[j]].profile != wanted
    {
      for i := 0 to |warmOrder|
        invariant forall j :: 0 <= j < i ==> warm[warmOrder[j]].profile != wanted
      {
        if warm[warmOrder[i]].profile == wanted {
          return Some(warmOrder[i]);
        }
      }
      slot := None;
    }

    /** Take a slot off the list. */
    method Unpark(slot: string) returns (spec: Spec)
      requires Valid() && slot in warm
      modifies this`warm, this`warmOrder
      ensures Valid() && spec == old(warm)[slot] && warm == old(warm) - {slot}
      ensures exists i :: 0 <= i < |old(warmOrder)| && old(warmOrder)[i] == slot
                          && warmOrder == old(warmOrder)[..i] + old(warmOrder)[i + 1..]
    {
      spec := warm[slot];
      warm := warm - {slot};
      var i := 0;
      while warmOrder[i] != slot
        invariant 0 <= i < |warmOrder| && forall j :: 0 <= j < i ==> warmOrder[j] != slot
        decreases |warmOrder| - i
      {
        i := i + 1;
      }
      warmOrder := warmOrder[..i] + warmOrder[i + 1..];
    }

    method Park(slot: string, spec: Spec)
      requires Valid() && slot !in warm
      modifies this`warm, this`warmOrder
      ensures Valid() && warm == old(warm)[slot := spec]
      ensures warmOrder == old(warmOrder) + [slot]
    {
      warm := warm[slot := spec];
      warmOrder := warmOrder + [slot];
    }

    /** The oldest slot goes, and the create waits for its removal. */
    method EvictOldest(id: string, want: Resources)
      requires Valid() && warmOrder != []
      modifies this`warm, this`warmOrder, this`creates, capacity`reservations
      ensures Valid()
      ensures var s, first := old(Model()), old(warmOrder)[0];
              Model() == s.(warm := s.warm - {first}, res := s.res - {first}, creates := s.creates[id := Evicting(want)])
    {
      FirstSlot();
      hide Valid;
      var first := warmOrder[0];
      var _ := Unpark(first);
      capacity.Release(first);
      creates := creates[id := Evicting(want)];
      assert Parked(warm) == Parked(old(warm)) - {first};
    }

    /** One turn of the admission loop, up to the removal it waits for. */
    method Turn(id: string, want: Resources) returns (ghost evict: string, refused: bool)
      requires Valid() && id !in capacity.reservations && id !in warm
      modifies this`warm, this`warmOrder, this`sandboxes, this`creates, capacity`reservations
      ensures Valid() && (old(warm) != map[] ==> evict in old(warm) && old(warmOrder) != [] && evict == old(warmOrder)[0])
      ensures Model() == TryCold(old(Model()), id, want, evict)
      ensures refused <==> id !in creates
    {
      FirstSlot();
      hide Valid, Total, Held;
      evict := if |warmOrder| > 0 then warmOrder[0] else "";
      var reserved := capacity.TryReserve(id, want);
      if reserved {
        sandboxes := sandboxes[id := CREATING];
        creates := creates[id := Booting];
        refused := false;
      } else if |warmOrder| > 0 {
        EvictOldest(id, want);
        refused := false;
      } else {
        creates := creates - {id};
        refused := true;
      }
    }

    lemma FirstSlot()
      requires Valid()
      ensures |warmOrder| > 0 ==> warmOrder[0] in warm && warmOrder[0] in Parked(warm)
      ensures |warmOrder| == 0 ==> warm == map[] && Parked(warm) == map[]
    {
      assert forall k :: k in warm ==> k in warmOrder;
    }

    /** A create request up to its first suspension: claim a matching slot by swapping reservations, else admit cold.
        An id that is already live here is answered without touching anything; one that has ended is created again. */
    method CreateBegins(id: string, spec: Spec) returns (refused: bool, ghost claim: Option<string>, ghost evict: string)
      requires Valid() && Owned(Model()) && !IsWarm(id)
      requires id in sent ==> id in sandboxes && (sandboxes[id].Live() || (sandboxes[id].Ended() && id !in creates))
      modifies this`warm, this`warmOrder, this`sandboxes, this`creates, this`sent, capacity`reservations
      ensures Valid()
      ensures claim.Some? ==> claim.value in old(warm) && old(warm)[claim.value].profile == spec.profile
      ensures claim.None? && capacity.Open() && !(id in old(sandboxes) && old(sandboxes)[id].Live()) ==>
                forall k :: k in old(warm) ==> old(warm)[k].profile != spec.profile
      ensures if id in old(sandboxes) && old(sandboxes)[id].Live() then !refused && Model() == old(Model())
              else Model() == Arrive(old(Model()), id, spec.resources, claim, evict) && (refused <==> id !in creates)
      ensures id !in old(sent) ==> Enabled(old(Model()), CreateArrives(id, spec.resources, claim, evict))
    {
      FirstSlot();
      IdleHoldsNothing(Model(), id);
      hide Valid, Owned, CanReserve, TryCold;
      claim, evict := None, if |warmOrder| > 0 then warmOrder[0] else "";
      if id in sandboxes && sandboxes[id].Live() {
        return false, claim, evict;
      }
      sent := sent + {id};
      if capacity.draining || capacity.DiskPressure() {
        return true, claim, evict;
      }
      var slot := FindSlot(spec.profile);
      claim := slot;
      if slot.Some? {
        refused, evict := Claim(id, spec.resources, slot.value);
      } else {
        evict, refused := Turn(id, spec.resources);
      }
    }

    /** Free the slot's reservation and take the request's; if that fails, put the slot back. */
    method Swap(id: string, want: Resources, slot: string) returns (swapped: bool)
      requires Valid() && slot in warm && capacity.Open()
      requires id !in warm && id !in capacity.reservations
      modifies this`warm, this`warmOrder, this`creates, capacity`reservations
      ensures Valid()
      ensures var freed := old(capacity.reservations) - {slot};
              && swapped == capacity.Bounds().Fits(Total(Held(freed)), want)
              && capacity.reservations == if swapped then freed[id := Reservation(want, false)]
                                          else freed[slot := Reservation(old(warm)[slot].resources, true)]
      ensures warm == if swapped then old(warm) - {slot} else old(warm)
      ensures creates == if swapped then old(creates)[id := Claiming(slot, want)] else old(creates)
    {
      hide Valid, Total;
      var parked := Unpark(slot);
      capacity.Release(slot);
      swapped := capacity.TryReserve(id, want);
      if swapped {
        creates := creates[id := Claiming(slot, want)];
      } else {
        capacity.Adopt(slot, parked.resources);
        Park(slot, parked);
        assert warm == old(warm);
      }
    }

    /** The claim: swap the reservations, or go on with the admission loop. */
    method Claim(id: string, want: Resources, slot: string) returns (refused: bool, ghost evict: string)
      requires Valid() && slot in warm && capacity.Open()
      requires id !in warm && id !in capacity.reservations
      modifies this`warm, this`warmOrder, this`sandboxes, this`creates, capacity`reservations
      ensures Valid() && evict in old(warm)
      ensures var s := old(Model());
              var freed := s.(res := s.res - {slot});
              Model() == if CanReserve(freed, want)
                         then s.(res := freed.res[id := Reservation(want, false)], warm := s.warm - {slot},
                                 creates := s.creates[id := Claiming(slot, want)])
                         else TryCold(SwapBack(s, slot), id, want, evict)
      ensures refused <==> id !in creates
    {
      hide Valid, TryCold, Total, Held;
      evict := slot;
      ghost var before := Parked(warm);
      var swapped := Swap(id, want, slot);
      refused := false;
      if swapped {
        assert Parked(warm) == before - {slot};
      } else {
        assert before == (before - {slot})[slot := before[slot]];
        evict, refused := Turn(id, want);
      }
    }

    method ClaimReturns(id: string, adopted: bool)
      requires id in creates && creates[id].Claiming?
      modifies this`sandboxes, this`creates, this`up, capacity`reservations
      ensures Model() == EndClaim(old(Model()), id, adopted)
    {
      if adopted {
        sandboxes := sandboxes[id := RUNNING];
        capacity.Commit(id);
        creates := creates - {id};
        up := up + {id};
      } else {
        capacity.Release(id);
        creates := creates[id := Evicting(creates[id].want)];
      }
    }

    method BootReturns(id: string, ok: bool)
      requires id in creates && creates[id].Booting? && id in sandboxes
      modifies this`sandboxes, this`creates, capacity`reservations
      ensures Model() == EndBoot(old(Model()), id, ok)
    {
      if !ok {
        sandboxes := sandboxes[id := FAILED];
        capacity.Release(id);
        creates := creates[id := Discarding(true)];
      } else if sandboxes[id] != CREATING {
        capacity.Release(id);
        creates := creates[id := Discarding(false)];
      } else {
        sandboxes := sandboxes[id := RUNNING];
        capacity.Commit(id);
        creates := creates - {id};
      }
    }

    method DiscardReturns(id: string, failed: bool, removed: bool)
      requires id in creates && creates[id] == Discarding(failed)
      modifies this`sandboxes, this`creates, this`up
      ensures Model() == EndDiscard(old(Model()), id, removed)
    {
      if failed {
        sandboxes := sandboxes - {id};
      }
      creates := creates - {id};
      up := if removed then up - {id} else up;
    }

    /** A delete up to the point where it waits for the runtime; false when there is nothing to stop. */
    method DeleteBegins(id: string) returns (begun: bool)
      requires id !in deleting
      modifies this`sandboxes, this`deleting
      ensures begun == Enabled(old(Model()), DeleteArrives(id))
      ensures Model() == if begun then Apply(old(Model()), DeleteArrives(id)) else old(Model())
    {
      begun := false;
      if id in sandboxes && !sandboxes[id].Ended() {
        sandboxes := sandboxes[id := STOPPING];
        deleting := deleting[id := false];
        begun := true;
      }
    }

    method DeleteReturns(id: string, final: Label)
      requires id in deleting && final in {STOPPED, EXPIRED}
      modifies this`sandboxes, this`deleting, capacity`reservations
      ensures Model() == EndDelete(old(Model()), id, final)
    {
      if id in sandboxes {
        sandboxes := sandboxes[id := final];
      }
      capacity.Release(id);
      deleting := deleting - {id};
    }

    method InspectReturns(id: string, present: bool, running: bool)
      requires id in sandboxes
      modifies this`sandboxes, capacity`reservations
      ensures Model() == EndInspect(old(Model()), id, present, running)
    {
      if !present {
        sandboxes := sandboxes[id := LOST];
        capacity.Release(id);
      } else if !running && sandboxes[id] == RUNNING {
        sandboxes := sandboxes[id := STOPPED];
        capacity.Release(id);
      }
    }

    method WarmBootBegins(slot: string, spec: Spec) returns (booting: bool)
      requires Enabled(Model(), WarmBootStarts(slot, spec.resources))
      modifies this`boots, capacity`reservations
      ensures Model() == StartWarmBoot(old(Model()), slot, spec.resources)
      ensures booting == CanReserve(old(Model()), spec.resources)
    {
      booting := capacity.TryReserve(slot, spec.resources);
      if booting {
        boots := boots[slot := spec.resources];
      }
    }

    method WarmBootReturns(slot: string, spec: Spec, ok: bool)
      requires Valid() && slot in boots && boots[slot] == spec.resources && slot !in warm
      modifies this`boots, this`warm, this`warmOrder, capacity`reservations
      ensures Valid() && Model() == EndWarmBoot(old(Model()), slot, ok)
    {
      if ok {
        ghost var before := warm;
        capacity.Commit(slot);
        Park(slot, spec);
        assert Parked(warm) == Parked(before)[slot := spec.resources];
      } else {
        capacity.Release(slot);
      }
      boots := boots - {slot};
    }
  }

  lemma IdleHoldsNothing(s: State, id: string)
    requires Owned(s) && !IsWarm(id)
    ensures id !in s.warm
    ensures id !in s.sent ==> id !in s.labels && id !in s.creates && id !in s.res
    ensures id in s.labels && s.labels[id].Ended() && id !in s.creates ==> id !in s.res
  {
    assert Sound(s, id);
  }

  function Parked(warm: map<string, Spec>): map<string, Resources> {
    map k | k in warm :: warm[k].resources
  }
}
