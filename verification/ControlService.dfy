/** The control plane's placement and kill as they are written (control/service.py): each method is the code one
    coroutine runs between two suspensions. It is proved to be a move of Lifecycle, and to do to record and ledger what
    KillRace says. What it requires of its copy is what Lifecycle shows every suspended coroutine to believe.
    `CreateReturned` takes its look at the record and the write behind it together. */
module ControlService {
  import opened Resources
  import opened Ledger
  import opened Lifecycle
  import K = KillRace
  import S = Scheduler
  import Sc = Scaler
  import WS = WorkerStates

  /** The task wrote `r` and is now at `next`. */
  ghost predicate Wrote(t: Task, r: Record, next: Option<Task>, was: map<string, Record>, now: map<string, Record>,
                        id: string)
  {
    Believes(t) && Writes(t, r) && Continues(t, r, next) && now == was[id := r]
  }

  class ControlPlane {
    var records: map<string, Record>
    const ledger: CapacityLedger

    constructor (ledger: CapacityLedger)
      ensures this.ledger == ledger && records == map[]
    {
      this.ledger := ledger;
      records := map[];
    }

    /** `_set_sandbox_state`: false stands for the StateError. */
    method SetState(id: string, copy: Record, state: SandboxState) returns (ok: bool, r: Record)
      modifies this
      ensures ok == Legal(copy.state, state)
      ensures r == if ok then copy.(state := state) else copy
      ensures records == if ok then old(records)[id := r] else old(records)
    {
      if !Legal(copy.state, state) {
        return false, copy;
      }
      r := copy.(state := state);
      records := records[id := r];
      ok := true;
    }

    /** Under the pool's lock, the placement looks at the record again. */
    method PlacementLooks(id: string, copy: Record) returns (next: Option<Task>)
      requires Believes(Placing(copy))
      ensures next == if id in records && !records[id].state.Terminal() then Some(Deciding(copy)) else None
      ensures id in records ==> MayTurn(System(records[id], map[]), Placing(copy), next)
    {
      if id !in records || records[id].state.Terminal() {
        return None;
      }
      next := Some(Deciding(copy));
    }

    /** The rest of the turn, still under the lock. */
    method PlacementTurn(id: string, copy: Record, pool: Sc.Pool, max: Option<int>, ws: seq<WS.WorkerRecord>,
                         want: Resources, excluded: set<string>)
      returns (next: Option<Task>, provision: bool)
      requires Believes(Deciding(copy))
      modifies this, ledger
      ensures next.Some? && (Wrote(Deciding(copy), next.value.copy, next, old(records), records, id)
                             || (next == Some(Placing(copy)) && records == old(records)))
      ensures next.value.Calling? ==>
                var l, w := old(ledger.workers), next.value.copy.worker.value;
                && (exists c: WS.WorkerRecord :: c.id == w && S.Takes(c, ws, excluded, l, max, want)
                      && forall v :: S.Takes(v, ws, excluded, l, max, want) ==> S.FitsNoWorse(c, v, l))
                && Lookup(ledger.workers, w) == Reserved(Lookup(l, w), id, want)
                && forall v :: v != w ==> Lookup(ledger.workers, v) == Lookup(l, v)
      ensures next.value.Placing? ==>
                forall v :: Lookup(ledger.workers, v) == Lookup(old(ledger.workers), v)
      ensures next.value.Placing? ==>
                && (forall w: WS.WorkerRecord :: !S.Takes(w, ws, excluded, old(ledger.workers), max, want))
                && provision == (Sc.DecideScaleUp(pool, ws) == Sc.SCALE_UP)
    {
      hide S.Takes, S.Better, S.Weighed, S.FitsNoWorse, Sc.Alive;
      provision := false;
      var worker, decision := S.Schedule(ledger, pool, max, ws, want, excluded);
      match worker
      case Some(w) =>
        ledger.Reserve(w.id, id, want);
        var ok, r := SetState(id, copy.(worker := Some(w.id)), CREATING);
        next := Some(Calling(r));
      case None =>
        provision := decision == Sc.SCALE_UP;
        next := KeepWaiting(id, copy, ws, provision);
    }

    /** Nothing fits: a worker is on its way, or capacity has to free up. */
    method KeepWaiting(id: string, copy: Record, ws: seq<WS.WorkerRecord>, provision: bool) returns (next: Option<Task>)
      requires Believes(Deciding(copy))
      modifies this
      ensures next.Some? && next.value.Placing?
      ensures Wrote(Deciding(copy), next.value.copy, next, old(records), records, id)
              || (next == Some(Placing(copy)) && records == old(records))
      ensures next.value.copy.state == if provision || exists w :: w in ws && w.state.Pending() then PROVISIONING_WORKER
                                       else WAITING_FOR_CAPACITY
    {
      var target := if provision || exists w :: w in ws && w.state.Pending() then PROVISIONING_WORKER
                    else WAITING_FOR_CAPACITY;
      if provision || copy.state != target {
        var ok, r := SetState(id, copy, target);
        next := Some(Placing(r));
      } else {
        next := Some(Placing(copy));
      }
    }

    /** The worker refused, or could not be reached: back to waiting, without a worker. */
    method PlacementRejected(id: string, copy: Record, worker: string) returns (next: Option<Task>)
      requires Believes(Rejected(copy))
      modifies this, ledger
      ensures next == Some(Placing(Record(WAITING_FOR_CAPACITY, None)))
      ensures Wrote(Rejected(copy), Record(WAITING_FOR_CAPACITY, None), next, old(records), records, id)
      ensures ledger.workers == old(ledger.workers)[worker := Released(Lookup(old(ledger.workers), worker), id)]
    {
      ledger.Release(worker, id);
      var ok, r := SetState(id, copy.(worker := None), WAITING_FOR_CAPACITY);
      next := Some(Placing(r));
    }

    /** The create has returned a view: look at the record again, and act on what it says now. A record that is gone
        counts as unchanged. */
    method CreateReturned(id: string, copy: Record, worker: string, running: bool)
      returns (next: Option<Task>, ghost placement: K.Placement)
      requires Believes(Calling(copy))
      modifies this, ledger
      ensures var seen := if id in old(records) then old(records)[id] else copy;
              var (l, store, p) := K.AnswerDoes(Lookup(old(ledger.workers), worker), seen, copy, id, running);
              && ledger.workers == old(ledger.workers)[worker := l]
              && placement == p
              && records == (if p.Ran? then old(records)[id := store] else old(records))
              && (p.CleaningUp? ==> MayTurn(System(seen, map[]), Calling(copy), next))
      ensures var seen := if id in old(records) then old(records)[id] else copy;
              next == if seen.state != CREATING then Some(Cleaning(seen)) else if running then None else Some(Broken(copy))
      ensures match placement
              case Ran => Wrote(Confirming(copy), copy.(state := RUNNING), next, old(records), records, id)
              case CleaningUp(seen, _) => next == Some(Cleaning(seen))
              case _ => placement.Failing? && next == Some(Broken(copy))
    {
      if id in records && records[id].state != CREATING {
        ledger.Release(worker, id);
        return Some(Cleaning(records[id])), K.CleaningUp(records[id], false);
      }
      if !running {
        ledger.Release(worker, id);
        return Some(Broken(copy)), K.Failing(copy, false);
      }
      ledger.Confirm(worker, id);
      var ok, r := SetState(id, copy, RUNNING);
      return None, K.Ran;
    }

    /** The placement's own delete has come back, or was given up. */
    method CleanupReturned(id: string, seen: Record, ghost answered: bool)
      requires Believes(Cleaning(seen))
      modifies this
      ensures if seen.state.Terminal() then records == old(records)
              else Wrote(Cleaning(seen), seen.(state := STOPPED), None, old(records), records, id)
      ensures id in old(records) ==> records[id] == K.CleanupDoes(old(records)[id], K.CleaningUp(seen, answered))
    {
      if !seen.state.Terminal() {
        var ok, r := SetState(id, seen, STOPPED);
      }
    }

    method BrokenReturned(id: string, copy: Record)
      requires Believes(Broken(copy))
      modifies this
      ensures Wrote(Broken(copy), copy.(state := FAILED), None, old(records), records, id)
    {
      var ok, r := SetState(id, copy, FAILED);
    }

    /** The worker was terminated or lost: what was placed there is lost. */
    method WorkerGone(id: string, copy: Record)
      requires Believes(Losing(copy))
      modifies this
      ensures Wrote(Losing(copy), copy.(state := LOST), None, old(records), records, id)
    {
      var ok, r := SetState(id, copy, LOST);
    }

    /** After a restart: a sandbox that was waiting fails, and one that was being created runs if its worker has it
        running, and fails if not. */
    method Recover(id: string, copy: Record, adopted: bool)
      requires Believes(Recovering(copy)) && (copy.state.Waiting() || copy.state == CREATING)
      modifies this
      ensures Wrote(Recovering(copy), copy.(state := if adopted && copy.state == CREATING then RUNNING else FAILED), None,
                    old(records), records, id)
    {
      if adopted && copy.state == CREATING {
        var ok, r := SetState(id, copy, RUNNING);
      } else {
        var ok, r := SetState(id, copy, FAILED);
      }
    }

    /** A create that timed out or was cancelled fails, unless it has ended in the meantime. */
    method FailUnlessTerminal(id: string, record: Record)
      requires Believes(GivingUp(record)) && (id in records ==> Placed(records[id]))
      modifies this
      ensures var current := if id in old(records) then old(records)[id] else record;
              if current.state.Terminal() then records == old(records)
              else Wrote(GivingUp(current), current.(state := FAILED), None, old(records), records, id)
    {
      if id in records && records[id].state.Terminal() {
        return;
      }
      var current := if id in records then records[id] else record;
      var ok, r := SetState(id, current, FAILED);
    }

    /** A kill or an expiry announces itself, or ends a sandbox that was never placed. */
    method StopBegins(id: string, copy: Record, final: SandboxState) returns (next: Option<Task>, ghost kill: K.Kill)
      requires Believes(Stopping(copy, final))
      modifies this
      ensures var (store, k) := K.AnnounceDoes(copy); records == old(records)[id := store] && kill == k
      ensures Wrote(Stopping(copy, final), K.AnnounceDoes(copy).0, next, old(records), records, id)
      ensures if copy.state in {RUNNING, CREATING}
              then records[id] == copy.(state := STOPPING) && next == Some(Deleting(records[id], final))
              else records[id] == copy.(state := STOPPED) && next == None
    {
      if copy.state !in {RUNNING, CREATING} {
        var ok, r := SetState(id, copy, STOPPED);
        return None, K.Unasked;
      }
      var ok, r := SetState(id, copy, STOPPING);
      next, kill := Some(Deleting(r, final)), K.AtWorker(r, false);
    }

    /** Its delete has come back, or the worker cannot be reached; with no worker left there is nothing to release. */
    method StopReturned(id: string, copy: Record, final: SandboxState, worker: Option<string>, reached: bool)
      requires Believes(Deleting(copy, final)) && (worker.None? ==> reached)
      modifies this, ledger
      ensures Wrote(Deleting(copy, final), copy.(state := if reached then final else LOST), None, old(records), records, id)
      ensures worker.None? ==> ledger.workers == old(ledger.workers)
      ensures worker.Some? ==>
                var w := worker.value;
                ledger.workers == old(ledger.workers)[w := Released(Lookup(old(ledger.workers), w), id)]
      ensures worker.Some? && final == STOPPED ==>
                var (l, store, kill) := K.ReturnDoes(Lookup(old(ledger.workers), worker.value), copy, id, reached);
                Lookup(ledger.workers, worker.value) == l && records[id] == store && kill == K.Over(reached)
    {
      if worker.Some? {
        ledger.Release(worker.value, id);
        if !reached {
          var ok, r := SetState(id, copy, LOST);
          return;
        }
      }
      var ok, r := SetState(id, copy, final);
    }
  }
}
