/** The control plane's view of each worker (scheduler/capacity.py): the last report, plus what it has sent since. */
module Ledger {
  import opened Resources
  import opened WorkerCapacity

  datatype WorkerLedger = WorkerLedger(report: Report, pending: map<string, Resources>, local: map<string, Resources>)

  const EMPTY := WorkerLedger(Report(0, 0, 0, 0, 0, 0, 0), map[], map[])

  /** What the worker reported as allocated. */
  function Reported(r: Report): Amount {
    Amount(r.cpuAllocated, r.memAllocated, r.running + r.pending)
  }

  /** What the ledger counts against the worker. */
  ghost function Used(l: WorkerLedger): Amount {
    Reported(l.report).Plus(Total(l.pending)).Plus(Total(l.local))
  }

  /** What is left of the reported limits, and how many sandboxes are counted. */
  ghost predicate Free(l: WorkerLedger, cpu: int, mem: int, count: int) {
    Used(l) == Amount(l.report.cpuAllocatable - cpu, l.report.memAllocatable - mem, count)
  }

  /** There is room for `r` beside what is counted, and for one more sandbox under the pool's cap. */
  ghost predicate Room(l: WorkerLedger, max: Option<int>, r: Resources) {
    Limits(l.report.cpuAllocatable, l.report.memAllocatable, max).Fits(Used(l), r)
  }

  method FreeOf(l: WorkerLedger) returns (cpu: int, mem: int, count: int)
    ensures Free(l, cpu, mem, count)
  {
    var pending := SumOf(l.pending);
    var local := SumOf(l.local);
    TotalCounts(l.pending);
    TotalCounts(l.local);
    cpu := l.report.cpuAllocatable - (l.report.cpuAllocated + pending.cpu + local.cpu);
    mem := l.report.memAllocatable - (l.report.memAllocated + pending.mem + local.mem);
    count := l.report.running + l.report.pending + |l.pending| + |l.local|;
    assert Used(l) == Reported(l.report).Plus(pending).Plus(local);
  }

  function Updated(l: WorkerLedger, report: Report): WorkerLedger {
    WorkerLedger(report, l.pending, map[])
  }

  function Reserved(l: WorkerLedger, id: string, r: Resources): WorkerLedger {
    l.(pending := l.pending[id := r])
  }

  function Confirmed(l: WorkerLedger, id: string): WorkerLedger {
    if id in l.pending then l.(pending := l.pending - {id}, local := l.local[id := l.pending[id]]) else l
  }

  function Released(l: WorkerLedger, id: string): WorkerLedger {
    l.(pending := l.pending - {id}, local := l.local - {id})
  }

  /** An unknown worker has an empty ledger. */
  function Lookup(workers: map<string, WorkerLedger>, worker: string): WorkerLedger {
    if worker in workers then workers[worker] else EMPTY
  }

  /** An unknown worker offers nothing, and nothing is counted on it. */
  lemma UnknownIsEmpty(workers: map<string, WorkerLedger>, worker: string)
    requires worker !in workers
    ensures var l := Lookup(workers, worker);
            && l.pending == map[] && l.local == map[] && Reported(l.report) == NOTHING
            && l.report.cpuAllocatable == 0 && l.report.memAllocatable == 0
  {
  }

  class CapacityLedger {
    var workers: map<string, WorkerLedger>

    constructor ()
      ensures workers == map[]
    {
      workers := map[];
    }

    function Of(worker: string): WorkerLedger
      reads this
    {
      Lookup(workers, worker)
    }

    method Update(worker: string, report: Report)
      modifies this
      ensures workers == old(workers)[worker := Updated(old(Of(worker)), report)]
    {
      workers := workers[worker := Of(worker).(report := report)];
      workers := workers[worker := Of(worker).(local := map[])];
    }

    method Reserve(worker: string, id: string, r: Resources)
      modifies this
      ensures workers == old(workers)[worker := Reserved(old(Of(worker)), id, r)]
    {
      var l := Of(worker);
      workers := workers[worker := l.(pending := l.pending[id := r])];
    }

    method Confirm(worker: string, id: string)
      modifies this
      ensures workers == old(workers)[worker := Confirmed(old(Of(worker)), id)]
    {
      var l := Of(worker);
      if id in l.pending {
        var r := l.pending[id];
        l := l.(pending := l.pending - {id});
        l := l.(local := l.local[id := r]);
      }
      workers := workers[worker := l];
    }

    method Release(worker: string, id: string)
      modifies this
      ensures workers == old(workers)[worker := Released(old(Of(worker)), id)]
    {
      var l := Of(worker);
      l := l.(pending := l.pending - {id});
      l := l.(local := l.local - {id});
      workers := workers[worker := l];
    }

    method Forget(worker: string)
      modifies this
      ensures workers == old(workers) - {worker}
    {
      workers := workers - {worker};
    }

    /** Free CPU and memory, and the number of sandboxes counted. Looking up a worker creates its ledger. */
    method Available(worker: string) returns (cpu: int, mem: int, count: int)
      modifies this
      ensures forall id :: Lookup(workers, id) == Lookup(old(workers), id)
      ensures Free(Lookup(old(workers), worker), cpu, mem, count)
    {
      var l := Of(worker);
      workers := workers[worker := l];
      cpu, mem, count := FreeOf(l);
    }
  }
}
