/** Which idle workers to terminate (scheduler/scaler.py, `workers_to_scale_down`). */
module ScaleDown {
  import opened Resources
  import opened WorkerStates
  import opened Scaler

  /** A number of sandboxes by worker. */
  type Counts = map<string, int>

  /** Ids compared the way Python compares strings. */
  predicate Precedes(a: string, b: string) {
    if a == "" then b != ""
    else b != "" && (a[0] < b[0] || (a[0] == b[0] && Precedes(a[1..], b[1..])))
  }

  lemma {:induction false} PrecedesIsTotal(a: string, b: string)
    ensures a == b || Precedes(a, b) || Precedes(b, a)
    ensures !(Precedes(a, b) && Precedes(b, a)) && !Precedes(a, a)
    decreases |a|
  {
    if a != "" {
      PrecedesIsTotal(a[1..], a[1..]);
      if b != "" {
        PrecedesIsTotal(a[1..], b[1..]);
        assert a == [a[0]] + a[1..] && b == [b[0]] + b[1..];
      }
    }
  }

  /** One id comes before another exactly when it is a proper prefix of it, or has the smaller character where they
      first differ. */
  lemma {:induction false} PrecedesIff(a: string, b: string)
    ensures Precedes(a, b) <==>
            exists k: nat :: k <= |a| && k < |b| && a[..k] == b[..k] && (k == |a| || a[k] < b[k])
    decreases |a|
  {
    if a != "" && b != "" {
      PrecedesIff(a[1..], b[1..]);
      assert a == [a[0]] + a[1..] && b == [b[0]] + b[1..];
      if Precedes(a, b) {
        var k := FirstDifference(a, b);
      }
      if k: nat :| k <= |a| && k < |b| && a[..k] == b[..k] && (k == |a| || a[k] < b[k]) && k > 0 {
        assert a[0] == a[..k][0] == b[..k][0] == b[0];
        assert a[1..][..k - 1] == a[..k][1..] == b[..k][1..] == b[1..][..k - 1];
      }
    } else if b != "" {
      assert a[..0] == b[..0];
    }
  }

  lemma {:induction false} FirstDifference(a: string, b: string) returns (k: nat)
    requires Precedes(a, b)
    ensures k <= |a| && k < |b| && a[..k] == b[..k] && (k == |a| || a[k] < b[k])
    decreases |a|
  {
    if a == "" || a[0] < b[0] {
      k := 0;
    } else {
      var j := FirstDifference(a[1..], b[1..]);
      k := j + 1;
      assert a[..k] == [a[0]] + a[1..][..j] && b[..k] == [b[0]] + b[1..][..j];
    }
  }

  lemma {:induction false} PrecedesIsTransitive(a: string, b: string, c: string)
    requires Precedes(a, b) && Precedes(b, c)
    ensures Precedes(a, c)
    decreases |a|
  {
    if a != "" && a[0] == b[0] == c[0] {
      PrecedesIsTransitive(a[1..], b[1..], c[1..]);
    }
  }

  /** The sort key: how long idle, then the id. */
  function Key(w: WorkerRecord): int {
    if w.idleSince.Some? then w.idleSince.value else w.createdAt
  }

  predicate NotAfter(a: WorkerRecord, b: WorkerRecord) {
    Key(a) < Key(b) || (Key(a) == Key(b) && !Precedes(b.id, a.id))
  }

  lemma NotAfterIsTotal(a: WorkerRecord, b: WorkerRecord)
    ensures NotAfter(a, b) || NotAfter(b, a)
  {
    PrecedesIsTotal(a.id, b.id);
  }

  lemma NotAfterIsTransitive(a: WorkerRecord, b: WorkerRecord, c: WorkerRecord)
    requires NotAfter(a, b) && NotAfter(b, c)
    ensures NotAfter(a, c)
  {
    if Key(a) == Key(c) && Precedes(c.id, a.id) {
      PrecedesIsTotal(a.id, b.id);
      PrecedesIsTotal(b.id, c.id);
      if a.id != b.id && b.id != c.id {
        PrecedesIsTransitive(c.id, a.id, b.id);
      }
    }
  }

  predicate Sorted(ws: seq<WorkerRecord>) {
    forall i, j :: 0 <= i < j < |ws| ==> NotAfter(ws[i], ws[j])
  }

  /** Where `w` goes: behind everything that is not after it. */
  method InsertionPoint(sorted: seq<WorkerRecord>, w: WorkerRecord) returns (k: nat)
    ensures k <= |sorted| && (k > 0 ==> NotAfter(sorted[k - 1], w))
    ensures forall j :: k <= j < |sorted| ==> NotAfter(w, sorted[j])
  {
    hide Precedes, Key, NotAfter;
    k := |sorted|;
    while k > 0 && !NotAfter(sorted[k - 1], w)
      invariant 0 <= k <= |sorted|
      invariant forall j :: k <= j < |sorted| ==> NotAfter(w, sorted[j])
    {
      NotAfterIsTotal(sorted[k - 1], w);
      k := k - 1;
    }
  }

  /** Python's stable sort, by insertion. */
  method SortByIdleness(ws: seq<WorkerRecord>) returns (sorted: seq<WorkerRecord>)
    ensures Sorted(sorted) && multiset(sorted) == multiset(ws)
  {
    hide Precedes, Key, NotAfter, Sorted;
    NothingIsSorted();
    sorted := [];
    for n := 0 to |ws|
      invariant Sorted(sorted) && multiset(sorted) == multiset(ws[..n])
    {
      var k := InsertionPoint(sorted, ws[n]);
      InsertionSorts(sorted, ws[n], k);
      InsertionKeeps(sorted, ws[n], k);
      assert ws[..n + 1] == ws[..n] + [ws[n]];
      sorted := sorted[..k] + [ws[n]] + sorted[k..];
    }
    assert ws[..|ws|] == ws;
  }

  lemma NothingIsSorted()
    ensures Sorted([])
  {
  }

  lemma InsertionKeeps(ws: seq<WorkerRecord>, w: WorkerRecord, k: nat)
    requires k <= |ws|
    ensures multiset(ws[..k] + [w] + ws[k..]) == multiset(ws) + multiset{w}
  {
    assert ws == ws[..k] + ws[k..];
  }

  lemma InsertionSorts(ws: seq<WorkerRecord>, w: WorkerRecord, k: nat)
    requires Sorted(ws) && k <= |ws| && (k > 0 ==> NotAfter(ws[k - 1], w))
    requires forall j :: k <= j < |ws| ==> NotAfter(w, ws[j])
    ensures Sorted(ws[..k] + [w] + ws[k..])
  {
    forall i | 0 <= i < k
      ensures NotAfter(ws[i], w)
    {
      if i < k - 1 {
        NotAfterIsTransitive(ws[i], ws[k - 1], w);
      }
    }
  }

  function At(m: Counts, id: string): int {
    if id in m then m[id] else 0
  }

  /** Empty, in a state that can be ended, and either marked or idle for long enough. */
  predicate Candidate(pool: Pool, w: WorkerRecord, active: Counts, pending: Counts, now: int) {
    && Is(Counted, w)
    && w.state in {HEALTHY, DRAINING, UNHEALTHY}
    && At(active, w.id) == 0 && At(pending, w.id) == 0
    && (w.terminateWhenEmpty ||
        now - (if w.idleSince.Some? then w.idleSince.value
               else if w.healthyAt.Some? then w.healthyAt.value
               else w.createdAt) >= pool.idleTtl)
  }

  function Candidates(pool: Pool, ws: seq<WorkerRecord>, active: Counts, pending: Counts, now: int): seq<WorkerRecord> {
    if ws == [] then []
    else (if Candidate(pool, ws[0], active, pending, now) then [ws[0]] else [])
         + Candidates(pool, ws[1..], active, pending, now)
  }

  /** Which of the sorted candidates are taken while `remaining` workers count as up. */
  function Picks(sorted: seq<WorkerRecord>, remaining: int, min: int): seq<WorkerRecord> {
    if sorted == [] then []
    else if sorted[0].terminateWhenEmpty || remaining - 1 >= min then [sorted[0]] + Picks(sorted[1..], remaining - 1, min)
    else Picks(sorted[1..], remaining, min)
  }

  function Unmarked(ws: seq<WorkerRecord>): nat {
    if ws == [] then 0 else (if ws[0].terminateWhenEmpty then 0 else 1) + Unmarked(ws[1..])
  }

  function Room(remaining: int, min: int): nat {
    if remaining > min then remaining - min else 0
  }

  /** Unmarked workers are only taken while the pool stays at its minimum. */
  lemma {:induction false} UnmarkedPicksLeaveMinimum(sorted: seq<WorkerRecord>, remaining: int, min: int)
    ensures Unmarked(Picks(sorted, remaining, min)) <= Room(remaining, min)
    decreases |sorted|
  {
    if sorted != [] {
      var taken := sorted[0].terminateWhenEmpty || remaining - 1 >= min;
      UnmarkedPicksLeaveMinimum(sorted[1..], if taken then remaining - 1 else remaining, min);
      if taken {
        assert Picks(sorted, remaining, min)[1..] == Picks(sorted[1..], remaining - 1, min);
      }
    }
  }

  /** With no marked worker the picks are exactly the longest prefix the minimum allows. */
  lemma {:induction false} UnmarkedPicksArePrefix(sorted: seq<WorkerRecord>, remaining: int, min: int)
    requires forall i :: 0 <= i < |sorted| ==> !sorted[i].terminateWhenEmpty
    ensures Picks(sorted, remaining, min) == sorted[..Least(|sorted|, Room(remaining, min))]
    decreases |sorted|
  {
    if sorted != [] {
      var taken := remaining - 1 >= min;
      UnmarkedPicksArePrefix(sorted[1..], if taken then remaining - 1 else remaining, min);
    }
  }

  lemma {:induction false} CandidatesAreCandidates(pool: Pool, ws: seq<WorkerRecord>, active: Counts, pending: Counts,
                                                   now: int, w: WorkerRecord)
    ensures w in Candidates(pool, ws, active, pending, now) <==> w in ws && Candidate(pool, w, active, pending, now)
    decreases |ws|
  {
    if ws != [] {
      CandidatesAreCandidates(pool, ws[1..], active, pending, now, w);
      assert ws == [ws[0]] + ws[1..];
    }
  }

  lemma {:induction false} PicksComeFrom(sorted: seq<WorkerRecord>, remaining: int, min: int, w: WorkerRecord)
    ensures w in Picks(sorted, remaining, min) ==> w in sorted
    decreases |sorted|
  {
    if sorted != [] {
      PicksComeFrom(sorted[1..], remaining - 1, min, w);
      PicksComeFrom(sorted[1..], remaining, min, w);
    }
  }

  /** The picks from the candidates in order of idleness. */
  ghost predicate Greedy(result: seq<WorkerRecord>, pool: Pool, ws: seq<WorkerRecord>, active: Counts, pending: Counts,
                         now: int)
  {
    exists sorted: seq<WorkerRecord> ::
      && Sorted(sorted) && multiset(sorted) == multiset(Candidates(pool, ws, active, pending, now))
      && result == Picks(sorted, Count(Healthy, ws), pool.minWorkers)
  }

  lemma CandidatesFrom(pool: Pool, ws: seq<WorkerRecord>, active: Counts, pending: Counts, now: int, i: nat)
    requires i <= |ws|
    ensures Candidates(pool, ws[i..], active, pending, now) ==
            if i == |ws| then [] else
              (if Candidate(pool, ws[i], active, pending, now) then [ws[i]] else [])
              + Candidates(pool, ws[i + 1..], active, pending, now)
  {
    hide Candidate;
    assert i < |ws| ==> ws[i..][1..] == ws[i + 1..];
  }

  lemma PicksFrom(sorted: seq<WorkerRecord>, i: nat, remaining: int, min: int)
    requires i <= |sorted|
    ensures Picks(sorted[i..], remaining, min) ==
            if i == |sorted| then []
            else if sorted[i].terminateWhenEmpty || remaining - 1 >= min
            then [sorted[i]] + Picks(sorted[i + 1..], remaining - 1, min)
            else Picks(sorted[i + 1..], remaining, min)
  {
    assert i < |sorted| ==> sorted[i..][1..] == sorted[i + 1..];
  }

  method WorkersToScaleDown(pool: Pool, ws: seq<WorkerRecord>, active: Counts, pending: Counts, now: int)
    returns (result: seq<WorkerRecord>)
    ensures Greedy(result, pool, ws, active, pending, now)
  {
    hide Candidate, Candidates, Picks, Sorted, Count;
    var candidates := [];
    assert ws[0..] == ws;
    for i := 0 to |ws|
      invariant candidates + Candidates(pool, ws[i..], active, pending, now) == Candidates(pool, ws, active, pending, now)
    {
      CandidatesFrom(pool, ws, active, pending, now, i);
      if Candidate(pool, ws[i], active, pending, now) {
        candidates := candidates + [ws[i]];
      }
    }
    CandidatesFrom(pool, ws, active, pending, now, |ws|);
    var order := SortByIdleness(candidates);
    var remaining := Count(Healthy, ws);
    result := [];
    assert order[0..] == order;
    for i := 0 to |order|
      invariant result + Picks(order[i..], remaining, pool.minWorkers) == Picks(order, Count(Healthy, ws), pool.minWorkers)
    {
      PicksFrom(order, i, remaining, pool.minWorkers);
      if order[i].terminateWhenEmpty || remaining - 1 >= pool.minWorkers {
        result := result + [order[i]];
        remaining := remaining - 1;
      }
    }
    PicksFrom(order, |order|, remaining, pool.minWorkers);
  }

  /** Idle since it became so, or else since it was first healthy, or else since it was made. */
  predicate IdleFor(w: WorkerRecord, ttl: int, now: int) {
    match (w.idleSince, w.healthyAt)
    case (Some(since), _) => since + ttl <= now
    case (None, Some(since)) => since + ttl <= now
    case (None, None) => w.createdAt + ttl <= now
  }

  /** And none of these is overlooked: a worker that qualifies is a candidate, and if it has been marked it goes. If an
      unmarked one stays, no more workers than the minimum are left. */
  lemma ScaleDownMissesNone(pool: Pool, ws: seq<WorkerRecord>, active: Counts, pending: Counts, now: int,
                            result: seq<WorkerRecord>, w: WorkerRecord)
    requires Greedy(result, pool, ws, active, pending, now) && w in ws && w !in result
    requires w.state in {HEALTHY, DRAINING, UNHEALTHY} && (w.terminateWhenEmpty || IdleFor(w, pool.idleTtl, now))
    requires (w.id in active ==> active[w.id] == 0) && (w.id in pending ==> pending[w.id] == 0)
    ensures !w.terminateWhenEmpty && Up(ws) - |result| <= pool.minWorkers
  {
    UpIs(ws);
    var sorted: seq<WorkerRecord> :|
      && Sorted(sorted) && multiset(sorted) == multiset(Candidates(pool, ws, active, pending, now))
      && result == Picks(sorted, Count(Healthy, ws), pool.minWorkers);
    CandidatesAreCandidates(pool, ws, active, pending, now, w);
    assert w in multiset(sorted);
    PicksMissNone(sorted, Count(Healthy, ws), pool.minWorkers, w);
  }

  lemma {:induction false} PicksMissNone(sorted: seq<WorkerRecord>, remaining: int, min: int, w: WorkerRecord)
    requires w in sorted && w !in Picks(sorted, remaining, min)
    ensures !w.terminateWhenEmpty && remaining - |Picks(sorted, remaining, min)| <= min
    decreases |sorted|
  {
    var taken := sorted[0].terminateWhenEmpty || remaining - 1 >= min;
    var left := if taken then remaining - 1 else remaining;
    assert sorted == [sorted[0]] + sorted[1..];
    if taken {
      assert Picks(sorted, remaining, min) == [sorted[0]] + Picks(sorted[1..], left, min);
    }
    if w in sorted[1..] {
      PicksMissNone(sorted[1..], left, min, w);
    }
  }

  function Least(a: int, b: int): int {
    if a < b then a else b
  }

  /** The workers that are up or on their way. */
  ghost function Up(ws: seq<WorkerRecord>): nat {
    |set i | 0 <= i < |ws| && ws[i].state in {HEALTHY, DRAINING, PROVISIONING, BOOTSTRAPPING, CONNECTING}|
  }

  lemma UpIs(ws: seq<WorkerRecord>)
    ensures Up(ws) == Count(Healthy, ws)
  {
    CountIs(Healthy, ws);
    assert (set i | 0 <= i < |ws| && ws[i].state in {HEALTHY, DRAINING, PROVISIONING, BOOTSTRAPPING, CONNECTING}) ==
           Places(Healthy, ws);
  }

  /** What is terminated is up, empty, and marked or idle for the pool's time; unmarked workers go only while the minimum
      stays. */
  lemma ScaleDownIsSafe(pool: Pool, ws: seq<WorkerRecord>, active: Counts, pending: Counts, now: int,
                        result: seq<WorkerRecord>)
    requires Greedy(result, pool, ws, active, pending, now)
    ensures forall w :: w in result ==>
              && w in ws && w.state in {HEALTHY, DRAINING, UNHEALTHY}
              && (w.id in active ==> active[w.id] == 0) && (w.id in pending ==> pending[w.id] == 0)
              && (w.terminateWhenEmpty || IdleFor(w, pool.idleTtl, now))
    ensures Unmarked(result) <= Room(Up(ws), pool.minWorkers)
  {
    UpIs(ws);
    var sorted: seq<WorkerRecord> :|
      && Sorted(sorted) && multiset(sorted) == multiset(Candidates(pool, ws, active, pending, now))
      && result == Picks(sorted, Count(Healthy, ws), pool.minWorkers);
    PicksQualify(pool, ws, active, pending, now, sorted);
    UnmarkedPicksLeaveMinimum(sorted, Count(Healthy, ws), pool.minWorkers);
  }

  /** With no worker marked, as many candidates go as the minimum allows; nobody who stays has been idle for longer than
      one who goes; and survivors are not fewer than the minimum, unless there were fewer to begin with. */
  lemma ScaleDownTakesLongestIdle(pool: Pool, ws: seq<WorkerRecord>, active: Counts, pending: Counts, now: int,
                                  result: seq<WorkerRecord>)
    requires Greedy(result, pool, ws, active, pending, now) && forall w :: w in ws ==> !w.terminateWhenEmpty
    ensures var all := Candidates(pool, ws, active, pending, now);
            && |result| == Least(|all|, Room(Count(Healthy, ws), pool.minWorkers))
            && multiset(result) <= multiset(all)
            && forall w, v :: w in result && v in multiset(all) - multiset(result) ==> NotAfter(w, v)
    ensures Count(Healthy, ws) - |result| >= Least(Count(Healthy, ws), pool.minWorkers)
  {
    hide Precedes, Key, NotAfter, Candidate, Candidates, Count;
    var all := Candidates(pool, ws, active, pending, now);
    var sorted: seq<WorkerRecord> :|
      Sorted(sorted) && multiset(sorted) == multiset(all) && result == Picks(sorted, Count(Healthy, ws), pool.minWorkers);
    forall i | 0 <= i < |sorted|
      ensures !sorted[i].terminateWhenEmpty
    {
      assert sorted[i] in multiset(sorted);
      CandidatesAreCandidates(pool, ws, active, pending, now, sorted[i]);
    }
    var k := Least(|sorted|, Room(Count(Healthy, ws), pool.minWorkers));
    UnmarkedPicksArePrefix(sorted, Count(Healthy, ws), pool.minWorkers);
    assert |multiset(sorted)| == |multiset(all)|;
    PrefixComesFirst(sorted, k);
  }

  /** By the time since when they have been idle, or else were made, and then by id. */
  lemma LongestIdleGoFirst(pool: Pool, ws: seq<WorkerRecord>, active: Counts, pending: Counts, now: int,
                           result: seq<WorkerRecord>, w: WorkerRecord, v: WorkerRecord)
    requires Greedy(result, pool, ws, active, pending, now) && forall w :: w in ws ==> !w.terminateWhenEmpty
    requires w in result && v in multiset(Candidates(pool, ws, active, pending, now)) - multiset(result)
    ensures var a := if w.idleSince.Some? then w.idleSince.value else w.createdAt;
            var b := if v.idleSince.Some? then v.idleSince.value else v.createdAt;
            a < b || (a == b && !Precedes(v.id, w.id))
  {
    hide Greedy, Candidates, Precedes, Count;
    ScaleDownTakesLongestIdle(pool, ws, active, pending, now, result);
    assert NotAfter(w, v);
  }

  lemma PrefixComesFirst(sorted: seq<WorkerRecord>, k: nat)
    requires Sorted(sorted) && k <= |sorted|
    ensures multiset(sorted[..k]) <= multiset(sorted)
    ensures forall w, v :: w in sorted[..k] && v in multiset(sorted) - multiset(sorted[..k]) ==> NotAfter(w, v)
  {
    hide Precedes, Key, NotAfter;
    assert sorted == sorted[..k] + sorted[k..];
    assert multiset(sorted) - multiset(sorted[..k]) == multiset(sorted[k..]);
    forall w, v | w in sorted[..k] && v in sorted[k..]
      ensures NotAfter(w, v)
    {
      var i :| 0 <= i < k && sorted[i] == w;
      var j :| k <= j < |sorted| && sorted[j] == v;
      assert NotAfter(sorted[i], sorted[j]);
    }
  }

  lemma PicksQualify(pool: Pool, ws: seq<WorkerRecord>, active: Counts, pending: Counts, now: int,
                     sorted: seq<WorkerRecord>)
    requires multiset(sorted) == multiset(Candidates(pool, ws, active, pending, now))
    ensures forall w :: w in sorted ==> w in ws && Candidate(pool, w, active, pending, now)
    ensures forall w :: w in Picks(sorted, Count(Healthy, ws), pool.minWorkers) ==> w in sorted
  {
    forall w | w in sorted
      ensures w in ws && Candidate(pool, w, active, pending, now)
    {
      assert w in multiset(sorted);
      CandidatesAreCandidates(pool, ws, active, pending, now, w);
    }
    forall w | w in Picks(sorted, Count(Healthy, ws), pool.minWorkers)
      ensures w in sorted
    {
      PicksComeFrom(sorted, Count(Healthy, ws), pool.minWorkers, w);
    }
  }
}
