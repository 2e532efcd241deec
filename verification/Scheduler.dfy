/** Best-fit placement over the ledger (scheduler/binpack.py, scheduler/scheduler.py). */
module Scheduler {
  import opened Resources
  import opened WorkerStates
  import opened Ledger
  import S = Scaler
  import D = ScaleDown

  /** A worker with what is free on it. */
  datatype Candidate = Candidate(worker: WorkerRecord, cpu: int, mem: int, sandboxes: int, max: Option<int>) {
    predicate Fits(r: Resources) {
      (max.Some? ==> sandboxes < max.value) && r.cpu <= cpu && r.mem <= mem
    }
  }

  /** `a` scores lower than `b`: less memory left over, then less CPU, then older, then the smaller id. */
  predicate Better(a: Candidate, b: Candidate, r: Resources) {
    if a.mem - r.mem != b.mem - r.mem then a.mem - r.mem < b.mem - r.mem
    else if a.cpu - r.cpu != b.cpu - r.cpu then a.cpu - r.cpu < b.cpu - r.cpu
    else if a.worker.createdAt != b.worker.createdAt then a.worker.createdAt < b.worker.createdAt
    else D.Precedes(a.worker.id, b.worker.id)
  }

  /** The order on scores is strict, and total up to workers that share an id. */
  lemma BetterIsStrict(a: Candidate, b: Candidate, r: Resources)
    ensures !(Better(a, b, r) && Better(b, a, r)) && !Better(a, a, r)
    ensures a.worker.id != b.worker.id ==> Better(a, b, r) || Better(b, a, r)
  {
    D.PrecedesIsTotal(a.worker.id, b.worker.id);
    D.PrecedesIsTotal(a.worker.id, a.worker.id);
  }

  lemma BetterIsTransitive(a: Candidate, b: Candidate, c: Candidate, r: Resources)
    requires Better(a, b, r) && Better(b, c, r)
    ensures Better(a, c, r)
  {
    if D.Precedes(a.worker.id, b.worker.id) && D.Precedes(b.worker.id, c.worker.id) {
      D.PrecedesIsTransitive(a.worker.id, b.worker.id, c.worker.id);
    }
  }

  /** `c` fits, and nothing that fits scores lower. */
  predicate Best(c: Candidate, cs: seq<Candidate>, r: Resources) {
    c in cs && c.Fits(r) && forall d :: d in cs && d.Fits(r) ==> !Better(d, c, r)
  }

  lemma BestMovesOn(c: Candidate, cs: seq<Candidate>, best: Option<Candidate>, r: Resources)
    requires c.Fits(r)
    requires best.None? ==> forall d :: d in cs ==> !d.Fits(r)
    requires best.Some? ==> Best(best.value, cs, r) && Better(c, best.value, r)
    ensures Best(c, cs + [c], r)
  {
    BetterIsStrict(c, c, r);
    forall d | d in cs && d.Fits(r)
      ensures !Better(d, c, r)
    {
      if Better(d, c, r) {
        BetterIsTransitive(d, c, best.value, r);
      }
    }
  }

  /** The best fit: the candidate that would be left with the least memory, then with the least CPU, then the oldest,
      then the first by id. */
  method SelectWorker(cs: seq<Candidate>, r: Resources) returns (best: Option<Candidate>)
    ensures best.None? <==> forall c :: c in cs ==> !c.Fits(r)
    ensures best.Some? ==> Best(best.value, cs, r)
    ensures best.Some? ==> forall d :: d in cs && d.Fits(r) ==>
              var c := best.value;
              && c.mem <= d.mem
              && (c.mem == d.mem ==> c.cpu <= d.cpu)
              && (c.mem == d.mem && c.cpu == d.cpu ==> c.worker.createdAt <= d.worker.createdAt)
              && (c.mem == d.mem && c.cpu == d.cpu && c.worker.createdAt == d.worker.createdAt ==>
                    !D.Precedes(d.worker.id, c.worker.id))
  {
    best := None;
    for i := 0 to |cs|
      invariant best.None? <==> forall c :: c in cs[..i] ==> !c.Fits(r)
      invariant best.Some? ==> Best(best.value, cs[..i], r)
    {
      assert cs[..i + 1] == cs[..i] + [cs[i]];
      if cs[i].Fits(r) && (best.None? || Better(cs[i], best.value, r)) {
        BestMovesOn(cs[i], cs[..i], best, r);
        best := Some(cs[i]);
      }
    }
    assert cs[..|cs|] == cs;
  }

  /** With distinct ids the choice does not depend on the order in which the workers are listed. */
  lemma ChoiceIsOrderFree(cs: seq<Candidate>, ds: seq<Candidate>, r: Resources, c: Candidate, d: Candidate)
    requires forall x :: x in cs <==> x in ds
    requires forall x, y :: x in cs && y in cs && x.worker.id == y.worker.id ==> x == y
    requires Best(c, cs, r) && Best(d, ds, r)
    ensures c == d
  {
    BetterIsStrict(c, d, r);
  }

  /** A worker that may be given new sandboxes at all. */
  predicate Open(w: WorkerRecord) {
    w.state == HEALTHY && !w.draining && !w.terminateWhenEmpty
  }

  /** What the ledger says is free on a worker. */
  ghost function Weighed(w: WorkerRecord, l: WorkerLedger, max: Option<int>): Candidate {
    var used := Used(l);
    Candidate(w, l.report.cpuAllocatable - used.cpu, l.report.memAllocatable - used.mem, used.slots, max)
  }

  lemma RoomIsFit(w: WorkerRecord, l: WorkerLedger, max: Option<int>, r: Resources)
    ensures Weighed(w, l, max).Fits(r) <==> Room(l, max, r)
  {
  }

  method Weigh(ledger: CapacityLedger, w: WorkerRecord, max: Option<int>) returns (c: Candidate)
    modifies ledger
    ensures var known := old(ledger.workers);
            && (forall id :: Lookup(ledger.workers, id) == Lookup(known, id))
            && c == Weighed(w, Lookup(known, w.id), max)
  {
    var cpu, mem, count := ledger.Available(w.id);
    c := Candidate(w, cpu, mem, count, max);
    FreeIsWeighed(w, Lookup(old(ledger.workers), w.id), c);
  }

  lemma FreeIsWeighed(w: WorkerRecord, l: WorkerLedger, c: Candidate)
    requires Free(l, c.cpu, c.mem, c.sandboxes) && c.worker == w
    ensures c == Weighed(w, l, c.max)
  {
  }

  /** The workers that may be given new sandboxes, in the order in which they are listed. */
  function OpenOnes(ws: seq<WorkerRecord>): seq<WorkerRecord> {
    if ws == [] then [] else
      OpenOnes(ws[..|ws| - 1]) + if Open(ws[|ws| - 1]) then [ws[|ws| - 1]] else []
  }

  lemma {:induction false} OpenOnesAre(ws: seq<WorkerRecord>, w: WorkerRecord)
    ensures w in OpenOnes(ws) <==> w in ws && w.state == HEALTHY && !w.draining && !w.terminateWhenEmpty
    decreases |ws|
  {
    if ws != [] {
      OpenOnesAre(ws[..|ws| - 1], w);
      assert ws == ws[..|ws| - 1] + [ws[|ws| - 1]];
    }
  }

  lemma OpenOnesSnoc(ws: seq<WorkerRecord>, i: nat)
    requires i < |ws|
    ensures var before := OpenOnes(ws[..i]);
            OpenOnes(ws[..i + 1]) == if Open(ws[i]) then before + [ws[i]] else before
  {
    assert ws[..i + 1][..i] == ws[..i];
  }

  /** One candidate for each of these workers, with what its ledger says is free on it. */
  ghost predicate Weighs(cs: seq<Candidate>, ws: seq<WorkerRecord>, known: map<string, WorkerLedger>, max: Option<int>) {
    |cs| == |ws| && forall i :: 0 <= i < |ws| ==> cs[i] == Weighed(ws[i], Lookup(known, ws[i].id), max)
  }

  lemma WeighsOneMore(cs: seq<Candidate>, ws: seq<WorkerRecord>, known: map<string, WorkerLedger>, max: Option<int>,
                      w: WorkerRecord)
    requires Weighs(cs, ws, known, max)
    ensures Weighs(cs + [Weighed(w, Lookup(known, w.id), max)], ws + [w], known, max)
  {
    hide Weighed, Lookup;
  }

  method Candidates(ledger: CapacityLedger, max: Option<int>, ws: seq<WorkerRecord>) returns (out: seq<Candidate>)
    modifies ledger
    ensures forall id :: Lookup(ledger.workers, id) == Lookup(old(ledger.workers), id)
    ensures Weighs(out, OpenOnes(ws), old(ledger.workers), max)
  {
    ghost var known := ledger.workers;
    out := [];
    assert OpenOnes(ws[..0]) == [] && Weighs(out, [], known, max);
    hide Weighed, Weighs, Lookup, OpenOnes;
    for i := 0 to |ws|
      invariant forall id :: Lookup(ledger.workers, id) == Lookup(known, id)
      invariant Weighs(out, OpenOnes(ws[..i]), known, max)
    {
      OpenOnesSnoc(ws, i);
      if !Open(ws[i]) {
        continue;
      }
      var c := Weigh(ledger, ws[i], max);
      WeighsOneMore(out, OpenOnes(ws[..i]), known, max, ws[i]);
      out := out + [c];
    }
    assert ws[..|ws|] == ws;
  }

  /** A worker that may take the request and, going by the ledgers, has room for it. */
  ghost predicate Takes(w: WorkerRecord, ws: seq<WorkerRecord>, exclude: set<string>,
                        known: map<string, WorkerLedger>, max: Option<int>, r: Resources)
  {
    && w in ws && w.state == HEALTHY && !w.draining && !w.terminateWhenEmpty && w.id !in exclude
    && Room(Lookup(known, w.id), max, r)
  }

  /** By the ledgers, `c` has no more memory left than `w`; with equal memory no more CPU; with both equal it is not
      younger; and of the same age its id does not come after. */
  ghost predicate FitsNoWorse(c: WorkerRecord, w: WorkerRecord, known: map<string, WorkerLedger>) {
    var lc, lw := Lookup(known, c.id), Lookup(known, w.id);
    && MemLeft(lc) <= MemLeft(lw)
    && (MemLeft(lc) == MemLeft(lw) ==> CpuLeft(lc) <= CpuLeft(lw))
    && (MemLeft(lc) == MemLeft(lw) && CpuLeft(lc) == CpuLeft(lw) ==> c.createdAt <= w.createdAt)
    && (MemLeft(lc) == MemLeft(lw) && CpuLeft(lc) == CpuLeft(lw) && c.createdAt == w.createdAt ==>
          !D.Precedes(w.id, c.id))
  }

  /** What the ledger leaves of the worker's reported memory and CPU. */
  ghost function MemLeft(l: WorkerLedger): int {
    l.report.memAllocatable - Used(l).mem
  }

  ghost function CpuLeft(l: WorkerLedger): int {
    l.report.cpuAllocatable - Used(l).cpu
  }

  method NotExcluded(all: seq<Candidate>, exclude: set<string>) returns (cs: seq<Candidate>)
    ensures forall c :: c in cs <==> c in all && c.worker.id !in exclude
  {
    cs := [];
    for i := 0 to |all|
      invariant forall c :: c in cs <==> c in all[..i] && c.worker.id !in exclude
    {
      assert all[..i + 1] == all[..i] + [all[i]];
      if all[i].worker.id !in exclude {
        cs := cs + [all[i]];
      }
    }
    assert all[..|all|] == all;
  }

  /** A worker is chosen exactly when some healthy worker that is neither draining, marked nor excluded has room, and
      then it is the best fit of these by the ledgers: none would be left with less memory, and with equal memory none
      with less CPU, and with both equal none is older, and of the oldest none has the smaller id. Otherwise a worker is
      to be started exactly when none is on its way and fewer than the maximum are neither terminated nor lost. The
      ledgers stay as they were. */
  method Schedule(ledger: CapacityLedger, pool: S.Pool, max: Option<int>, ws: seq<WorkerRecord>, r: Resources,
                  exclude: set<string>)
    returns (worker: Option<WorkerRecord>, decision: S.Decision)
    modifies ledger
    ensures forall id :: Lookup(ledger.workers, id) == Lookup(old(ledger.workers), id)
    ensures worker.None? <==> forall w :: !Takes(w, ws, exclude, old(ledger.workers), max, r)
    ensures worker.Some? ==>
              var c := worker.value;
              && c in ws && c.state == HEALTHY && !c.draining && !c.terminateWhenEmpty && c.id !in exclude
              && Takes(c, ws, exclude, old(ledger.workers), max, r)
    ensures worker.Some? ==> forall w :: Takes(w, ws, exclude, old(ledger.workers), max, r) ==>
              FitsNoWorse(worker.value, w, old(ledger.workers))
    ensures decision == if worker.Some? then S.NONE else S.DecideScaleUp(pool, ws)
    ensures worker.None? ==>
              (decision == S.SCALE_UP <==>
                (forall w :: w in ws ==> w.state !in {PROVISIONING, BOOTSTRAPPING, CONNECTING})
                && S.Alive(ws) < pool.maxWorkers)
  {
    hide Used, S.Alive, OpenOnes;
    ghost var known := ledger.workers;
    ghost var ones := OpenOnes(ws);
    var all := Candidates(ledger, max, ws);
    var cs := NotExcluded(all, exclude);
    var best := SelectWorker(cs, r);
    forall w
      ensures Takes(w, ws, exclude, known, max, r) <==>
              var c := Weighed(w, Lookup(known, w.id), max); c in cs && c.Fits(r)
    {
      OpenOnesAre(ws, w);
      RoomIsFit(w, Lookup(known, w.id), max, r);
      if i :| 0 <= i < |ones| && ones[i] == w {
        assert all[i] == Weighed(w, Lookup(known, w.id), max);
      }
    }
    S.ScaleUpIff(pool, ws);
    match best
    case Some(c) => return Some(c.worker), S.NONE;
    case None => return None, S.DecideScaleUp(pool, ws);
  }
}
