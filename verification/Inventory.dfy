/** One inventory pass over a worker (control/service.py, `_reconcile_inventory`), on a listing and records that do
    not change while it runs. */
module Inventory {
  import opened Resources
  import W = WorkerProtocol
  import opened Lifecycle
  import opened Ledger

  /** A sandbox as the worker lists it; `explained` when an exit code or an out-of-memory kill is known. */
  datatype View = View(state: W.Label, pool: string, explained: bool)

  /** The record is active and placed on this worker. */
  predicate ActiveOn(r: Record, worker: string) {
    !r.state.Terminal() && r.worker == Some(worker)
  }

  /** The state the listing forces on a running record, if any. */
  function Verdict(remote: map<string, View>, id: string): Option<SandboxState> {
    if id !in remote then Some(LOST)
    else match remote[id].state
      case EXPIRED => Some(EXPIRED)
      case STOPPED => Some(if remote[id].explained then STOPPED else FAILED)
      case FAILED => Some(if remote[id].explained then STOPPED else FAILED)
      case LOST => Some(LOST)
      case _ => None
  }

  function Settled(r: Record, id: string, worker: string, remote: map<string, View>): Record {
    if r.worker == Some(worker) && r.state == RUNNING && Verdict(remote, id).Some?
    then r.(state := Verdict(remote, id).value)
    else r
  }

  function SettledAll(records: map<string, Record>, worker: string, remote: map<string, View>): map<string, Record> {
    map id | id in records :: Settled(records[id], id, worker, remote)
  }

  /** The running records the pass ends. */
  function Ended(records: map<string, Record>, worker: string, remote: map<string, View>): set<string> {
    set id | id in records && Settled(records[id], id, worker, remote) != records[id]
  }

  /** A container to remove: alive, of this pool, and without an active record placed here. */
  predicate Orphan(records: map<string, Record>, worker: string, pool: string, remote: map<string, View>, id: string) {
    id in remote && remote[id].state.Live() && remote[id].pool == pool && !(id in records && ActiveOn(records[id], worker))
  }

  /** Releasing several sandboxes, in any order. */
  function ReleasedAll(l: WorkerLedger, ids: set<string>): WorkerLedger {
    l.(pending := l.pending - ids, local := l.local - ids)
  }

  lemma ReleaseOneMore(l: WorkerLedger, ids: set<string>, id: string)
    ensures Released(ReleasedAll(l, ids), id) == ReleasedAll(l, ids + {id})
  {
  }

  lemma SettledMeans(was: map<string, Record>, worker: string, remote: map<string, View>)
    ensures SettledAll(was, worker, remote).Keys == was.Keys
    ensures forall id :: id in was && !(was[id].state == RUNNING && was[id].worker == Some(worker)) ==>
              SettledAll(was, worker, remote)[id] == was[id]
    ensures forall id :: id in was && was[id].state == RUNNING && was[id].worker == Some(worker) ==>
              var r := SettledAll(was, worker, remote)[id];
              && r.worker == Some(worker)
              && (r.state == LOST <==> id !in remote || remote[id].state == W.LOST)
              && (r.state == EXPIRED <==> id in remote && remote[id].state == W.EXPIRED)
              && (r.state == STOPPED <==>
                    id in remote && remote[id].state in {W.STOPPED, W.FAILED} && remote[id].explained)
              && (r.state == FAILED <==>
                    id in remote && remote[id].state in {W.STOPPED, W.FAILED} && !remote[id].explained)
              && (r.state == RUNNING <==>
                    id in remote && remote[id].state in {W.CREATING, W.RUNNING, W.STOPPING})
  {
    forall id | id in was && was[id].state == RUNNING && was[id].worker == Some(worker) && id in remote
      ensures Settled(was[id], id, worker, remote).state != RUNNING ==> remote[id].state.Ended()
    {
      match remote[id].state
      case _ =>
    }
  }

  lemma EndedAre(was: map<string, Record>, worker: string, remote: map<string, View>)
    ensures SettledAll(was, worker, remote).Keys == was.Keys
    ensures Ended(was, worker, remote) == set id | id in was && SettledAll(was, worker, remote)[id] != was[id]
  {
  }

  class ControlPlane {
    var records: map<string, Record>
    const ledger: CapacityLedger

    constructor (ledger: CapacityLedger)
      ensures this.ledger == ledger && records == map[]
    {
      this.ledger := ledger;
      records := map[];
    }

    /** A record that was running here is lost when the listing lacks it or lists it as lost, expired when listed so,
        stopped or failed when its container has ended, by whether that is explained, and otherwise stays; no other
        record changes. The ledger drops exactly what has ended, and exactly the live containers of this pool without
        an active record here are to be deleted. */
    method ReconcileInventory(worker: string, pool: string, remote: map<string, View>) returns (deletes: set<string>)
      modifies this, ledger
      ensures records == SettledAll(old(records), worker, remote)
      ensures records.Keys == old(records).Keys
      ensures forall id :: id in old(records)
                           && !(old(records)[id].state == RUNNING && old(records)[id].worker == Some(worker)) ==>
                records[id] == old(records)[id]
      ensures forall id :: id in old(records)
                           && old(records)[id].state == RUNNING && old(records)[id].worker == Some(worker) ==>
                && records[id].worker == Some(worker)
                && (records[id].state == LOST <==> id !in remote || remote[id].state == W.LOST)
                && (records[id].state == EXPIRED <==> id in remote && remote[id].state == W.EXPIRED)
                && (records[id].state == STOPPED <==>
                      id in remote && remote[id].state in {W.STOPPED, W.FAILED} && remote[id].explained)
                && (records[id].state == FAILED <==>
                      id in remote && remote[id].state in {W.STOPPED, W.FAILED} && !remote[id].explained)
                && (records[id].state == RUNNING <==>
                      id in remote && remote[id].state in {W.CREATING, W.RUNNING, W.STOPPING})
      ensures var gone := set id | id in old(records) && records[id] != old(records)[id];
              ledger.Of(worker) == ReleasedAll(old(ledger.Of(worker)), gone)
      ensures forall w :: w != worker ==> ledger.Of(w) == old(ledger.Of(w))
      ensures forall id :: id in deletes <==> Orphan(old(records), worker, pool, remote, id)
      ensures forall id :: id in deletes <==>
                && id in remote && remote[id].state in {W.CREATING, W.RUNNING} && remote[id].pool == pool
                && !(id in old(records) && old(records)[id].state !in {STOPPED, FAILED, LOST, EXPIRED}
                     && old(records)[id].worker == Some(worker))
    {
      hide SettledAll, Settled, Ended, ReleasedAll, Lookup;
      ghost var was := records;
      var ours := set id | id in records && ActiveOn(records[id], worker);
      EndOurs(worker, remote, ours);
      SettledMeans(was, worker, remote);
      EndedAre(was, worker, remote);
      deletes := {};
      var left := remote.Keys;
      while left != {}
        invariant left <= remote.Keys
        invariant forall id :: id in deletes <==> id in remote.Keys - left && Orphan(old(records), worker, pool, remote, id)
        decreases left
      {
        var id :| id in left;
        left := left - {id};
        var view := remote[id];
        if id !in ours && view.state in {W.RUNNING, W.CREATING} && view.pool == pool {
          if id !in records || records[id].state.Terminal() || records[id].worker != Some(worker) {
            deletes := deletes + {id};
          }
        }
      }
    }

    method EndOurs(worker: string, remote: map<string, View>, ours: set<string>)
      requires ours == set id | id in records && ActiveOn(records[id], worker)
      modifies this, ledger
      ensures records == SettledAll(old(records), worker, remote)
      ensures ledger.Of(worker) == ReleasedAll(old(ledger.Of(worker)), Ended(old(records), worker, remote))
      ensures forall w :: w != worker ==> ledger.Of(w) == old(ledger.Of(w))
    {
      hide Settled, Ended, ReleasedAll, Partly, PartlyEnded;
      ghost var was, l := records, ledger.Of(worker);
      var left := ours;
      ghost var done := {};
      PassStarts(was, worker, remote, l);
      while left != {}
        invariant left <= ours && done == ours - left
        invariant records == Partly(was, done, worker, remote)
        invariant ledger.Of(worker) == ReleasedAll(l, PartlyEnded(was, done, worker, remote))
        invariant forall w :: w != worker ==> ledger.Of(w) == old(ledger.Of(w))
        decreases left
      {
        var id :| id in left;
        PassOne(was, done, id, worker, remote, l);
        left := left - {id};
        done := done + {id};
        if records[id].state == RUNNING {
          var verdict := Verdict(remote, id);
          if verdict.Some? {
            records := records[id := records[id].(state := verdict.value)];
            ledger.Release(worker, id);
          }
        }
      }
      assert done == ours;
      PassEnds(was, ours, worker, remote);
    }
  }

  /** The records when those in `done` have been looked at, and which of them have been ended. */
  function Partly(was: map<string, Record>, done: set<string>, worker: string, remote: map<string, View>)
    : map<string, Record>
  {
    map id | id in was :: if id in done then Settled(was[id], id, worker, remote) else was[id]
  }

  function PartlyEnded(was: map<string, Record>, done: set<string>, worker: string, remote: map<string, View>)
    : set<string>
  {
    set id | id in was && id in done && Settled(was[id], id, worker, remote) != was[id]
  }

  lemma PassStarts(was: map<string, Record>, worker: string, remote: map<string, View>, l: WorkerLedger)
    ensures Partly(was, {}, worker, remote) == was
    ensures ReleasedAll(l, PartlyEnded(was, {}, worker, remote)) == l
  {
    assert PartlyEnded(was, {}, worker, remote) == {};
    assert l.pending - {} == l.pending && l.local - {} == l.local;
  }

  /** Looking at one more record ends it and releases it, or leaves everything alone. */
  lemma PassOne(was: map<string, Record>, done: set<string>, id: string, worker: string, remote: map<string, View>,
                l: WorkerLedger)
    requires id in was && id !in done && ActiveOn(was[id], worker)
    ensures id in Partly(was, done, worker, remote) && Partly(was, done, worker, remote)[id] == was[id]
    ensures var records, gone := Partly(was, done, worker, remote), PartlyEnded(was, done, worker, remote);
            var records', gone' := Partly(was, done + {id}, worker, remote), PartlyEnded(was, done + {id}, worker, remote);
            if was[id].state == RUNNING && Verdict(remote, id).Some?
            then records' == records[id := was[id].(state := Verdict(remote, id).value)]
                 && ReleasedAll(l, gone') == Released(ReleasedAll(l, gone), id)
            else records' == records && gone' == gone
  {
    var gone, gone' := PartlyEnded(was, done, worker, remote), PartlyEnded(was, done + {id}, worker, remote);
    ReleaseOneMore(l, gone, id);
    if Settled(was[id], id, worker, remote) != was[id] {
      assert gone' == gone + {id};
    } else {
      assert gone' == gone;
    }
    hide ReleasedAll;
  }

  lemma PassEnds(was: map<string, Record>, ours: set<string>, worker: string, remote: map<string, View>)
    requires ours == set id | id in was && ActiveOn(was[id], worker)
    ensures Partly(was, ours, worker, remote) == SettledAll(was, worker, remote)
    ensures PartlyEnded(was, ours, worker, remote) == Ended(was, worker, remote)
  {
  }

  /** What the pass writes is legal, and it leaves no running record without a container that is still alive. */
  lemma SettlingIsLegal(r: Record, id: string, worker: string, remote: map<string, View>)
    ensures var s := Settled(r, id, worker, remote);
            && Legal(r.state, s.state) && s.worker == r.worker
            && (s.state == RUNNING && s.worker == Some(worker) ==> id in remote && !remote[id].state.Ended())
            && (s != r ==> r.state == RUNNING && s.state.Terminal())
            && Settled(s, id, worker, remote) == s
  {
  }

  /** A second pass over the same listing ends nothing more and asks for the same deletes. */
  lemma PassSettles(records: map<string, Record>, worker: string, pool: string, remote: map<string, View>, id: string)
    ensures var after := SettledAll(records, worker, remote);
            && Ended(after, worker, remote) == {}
            && Orphan(after, worker, pool, remote, id) == Orphan(records, worker, pool, remote, id)
  {
  }
}
