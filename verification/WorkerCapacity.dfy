/** The worker's reservation map (worker/capacity.py): the final authority on admission. */
module WorkerCapacity {
  import opened Resources

  const WARM_PREFIX := "warm_"

  /** Reservations whose id carries the prefix belong to pre-booted slots, not to sandboxes. */
  predicate IsWarm(id: string) {
    WARM_PREFIX <= id
  }

  /** By its first five characters, the prefix alone included. */
  lemma IsWarmIff(id: string)
    ensures IsWarm(id) <==>
              |id| >= 5 && id[0] == 'w' && id[1] == 'a' && id[2] == 'r' && id[3] == 'm' && id[4] == '_'
  {
    assert |WARM_PREFIX| == 5;
    if |id| >= 5 && id[0] == 'w' && id[1] == 'a' && id[2] == 'r' && id[3] == 'm' && id[4] == '_' {
      assert forall i :: 0 <= i < 5 ==> WARM_PREFIX[i] == id[i];
      assert id[..5] == WARM_PREFIX;
    }
  }

  datatype Reservation = Reservation(resources: Resources, committed: bool)
  type Reservations = map<string, Reservation>

  /** Everything held, warm slots included. */
  function Held(res: Reservations): map<string, Resources> {
    map id | id in res :: res[id].resources
  }

  function HeldWarm(res: Reservations): map<string, Resources> {
    map id | id in res && IsWarm(id) :: res[id].resources
  }

  /** What real sandboxes hold: the worker's allocation as the control plane should see it. */
  function HeldReal(res: Reservations): map<string, Resources> {
    map id | id in res && !IsWarm(id) :: res[id].resources
  }

  function Committed(res: Reservations): set<string> {
    set id | id in res && res[id].committed
  }

  /** The two halves of the map add up to the whole. */
  lemma HeldSplits(res: Reservations)
    ensures Total(Held(res)) == Total(HeldReal(res)).Plus(Total(HeldWarm(res)))
  {
    assert Held(res) == HeldReal(res) + HeldWarm(res);
    TotalUnion(HeldReal(res), HeldWarm(res));
  }

  lemma HeldDifference(res: Reservations)
    ensures Total(Held(res)).cpu - Total(HeldWarm(res)).cpu == Total(HeldReal(res)).cpu
    ensures Total(Held(res)).mem - Total(HeldWarm(res)).mem == Total(HeldReal(res)).mem
  {
    HeldSplits(res);
  }

  /** Reserving, releasing and committing, seen through the amounts held. */
  lemma HeldUpdates(res: Reservations, id: string, r: Reservation)
    ensures Held(res[id := r]) == Held(res)[id := r.resources]
    ensures Held(res - {id}) == Held(res) - {id}
    ensures !IsWarm(id) ==> HeldReal(res[id := r]) == HeldReal(res)[id := r.resources]
    ensures IsWarm(id) ==> HeldReal(res[id := r]) == HeldReal(res)
    ensures HeldReal(res - {id}) == HeldReal(res) - {id}
  {
  }

  /** The sum's third component counts the entries. */
  lemma {:induction false} TotalCounts(m: map<string, Resources>)
    ensures Total(m).slots == |m|
    decreases m.Keys
  {
    if m != map[] {
      var k := Pick(m);
      TotalCounts(m - {k});
      assert m.Keys == (m - {k}).Keys + {k};
    }
  }

  lemma Sizes(a: set<string>, b: set<string>, c: set<string>)
    requires a !! b && c <= a + b
    ensures |a + b| == |a| + |b|
    ensures |c| == |a * c| + |b * c| && |b| == |b * c| + |b - c|
  {
    assert c == (a * c) + (b * c);
    assert b == (b * c) + (b - c);
  }

  /** The three counters of a report. */
  method Counts(res: Reservations) returns (running: int, warm: int, pending: int)
    ensures running + pending == |HeldReal(res)|
    ensures running == |HeldReal(res).Keys * Committed(res)| - |HeldWarm(res).Keys - Committed(res)|
    ensures warm == |HeldWarm(res)|
  {
    var slots, committed := HeldWarm(res).Keys, Committed(res);
    var mine := HeldReal(res).Keys;
    assert res.Keys == mine + slots;
    Sizes(mine, slots, committed);
    return |committed| - |slots|, |slots|, |res| - |committed|;
  }

  /** The capacity part of a health report. */
  datatype Report = Report(cpuAllocatable: int, memAllocatable: int, cpuAllocated: int, memAllocated: int,
                           running: int, warm: int, pending: int)

  class CapacityManager {
    const cpuAllocatable: int
    const memAllocatable: int
    const maxSandboxes: Option<int>
    const diskMinFree: int
    const diskMinFraction: real
    var reservations: Reservations
    var diskFree: Option<int>
    var diskTotal: Option<int>
    var draining: bool

    constructor (cpuTotal: int, memTotal: int, reserveCpu: int, reserveMem: int, maxSandboxes: Option<int>,
                 diskMinFree: int, diskMinFraction: real)
      ensures reservations == map[] && !draining && !DiskPressure()
      ensures cpuAllocatable == (if cpuTotal > reserveCpu then cpuTotal - reserveCpu else 0)
      ensures memAllocatable == (if memTotal > reserveMem then memTotal - reserveMem else 0)
      ensures this.maxSandboxes == maxSandboxes
    {
      this.cpuAllocatable := if cpuTotal - reserveCpu > 0 then cpuTotal - reserveCpu else 0;
      this.memAllocatable := if memTotal - reserveMem > 0 then memTotal - reserveMem else 0;
      this.maxSandboxes := maxSandboxes;
      this.diskMinFree := diskMinFree;
      this.diskMinFraction := diskMinFraction;
      reservations, diskFree, diskTotal, draining := map[], None, None, false;
    }

    function Bounds(): Limits {
      Limits(cpuAllocatable, memAllocatable, maxSandboxes)
    }

    /** Only a reading can show it: too few bytes free, or too small a part of a known total. */
    predicate DiskPressure(): (pressed: bool)
      reads this`diskFree, this`diskTotal
      ensures diskFree.None? ==> !pressed
      ensures diskFree.Some? && (diskTotal.None? || diskTotal.value == 0) ==> (pressed <==> diskFree.value < diskMinFree)
      ensures diskFree.Some? && diskFree.value < diskMinFree ==> pressed
      ensures diskFree.Some? && diskFree.value >= diskMinFree && diskTotal.Some? && diskTotal.value != 0 ==>
                (pressed <==> diskFree.value as real / diskTotal.value as real < diskMinFraction)
    {
      match (diskFree, diskTotal)
      case (None, _) => false
      case (Some(free), _) => free < diskMinFree || (diskTotal.Some? && diskTotal.value != 0 &&
                                                     free as real / diskTotal.value as real < diskMinFraction)
    }

    /** Neither draining nor short of disk. */
    predicate Open()
      reads this`diskFree, this`diskTotal, this`draining
    {
      !draining && !DiskPressure()
    }

    method Fits(r: Resources) returns (ok: bool)
      ensures ok == Bounds().Fits(Total(Held(reservations)), r)
    {
      assert Held(reservations).Keys == reservations.Keys;
      TotalCounts(Held(reservations));
      if maxSandboxes.Some? && |reservations| >= maxSandboxes.value {
        return false;
      }
      var used := SumOf(Held(reservations));
      if r.cpu > cpuAllocatable - used.cpu {
        return false;
      }
      return r.mem <= memAllocatable - used.mem;
    }

    method TryReserve(id: string, r: Resources) returns (ok: bool)
      modifies this`reservations
      ensures ok == (id in old(reservations) || (Open() && Bounds().Fits(Total(Held(old(reservations))), r)))
      ensures reservations == if ok && id !in old(reservations) then old(reservations)[id := Reservation(r, false)]
                              else old(reservations)
    {
      if id in reservations {
        return true;
      }
      if draining || DiskPressure() {
        return false;
      }
      ok := Fits(r);
      if ok {
        reservations := reservations[id := Reservation(r, false)];
      }
    }

    method Adopt(id: string, r: Resources)
      modifies this`reservations
      ensures reservations == old(reservations)[id := Reservation(r, true)]
    {
      reservations := reservations[id := Reservation(r, true)];
    }

    method Commit(id: string)
      modifies this`reservations
      ensures reservations == if id in old(reservations)
                              then old(reservations)[id := old(reservations)[id].(committed := true)]
                              else old(reservations)
    {
      if id in reservations {
        reservations := reservations[id := reservations[id].(committed := true)];
      }
    }

    method Release(id: string)
      modifies this`reservations
      ensures reservations == old(reservations) - {id}
    {
      reservations := reservations - {id};
    }

    /** The advertised allocation is exactly what real sandboxes hold. The running figure alone counts each
        warm slot that is still booting as minus one; only running and pending together are exact. */
    method Snapshot() returns (c: Report)
      ensures c.cpuAllocatable == cpuAllocatable && c.memAllocatable == memAllocatable
      ensures Amount(c.cpuAllocated, c.memAllocated, c.running + c.pending) == Total(HeldReal(reservations))
      ensures c.running == |HeldReal(reservations).Keys * Committed(reservations)|
                           - |HeldWarm(reservations).Keys - Committed(reservations)|
      ensures c.warm == |HeldWarm(reservations)|
    {
      hide Total;
      var all := SumOf(Held(reservations));
      var warm := SumOf(HeldWarm(reservations));
      HeldDifference(reservations);
      TotalCounts(HeldReal(reservations));
      var running, slots, pending := Counts(reservations);
      c := Report(cpuAllocatable, memAllocatable, all.cpu - warm.cpu, all.mem - warm.mem, running, slots, pending);
    }
  }
}
