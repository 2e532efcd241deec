/** A command's bounded, replayable event log and its subscribers (worker/commands.py, `CommandRun`). */
module EventLog {
  datatype Kind = Stdout | Stderr | Exit | Failure

  datatype Event = Event(number: nat, kind: Kind, text: string) {
    predicate Terminal() {
      kind in {Exit, Failure}
    }
  }

  function Weight(es: seq<Event>): nat {
    if es == [] then 0 else |es[0].text| + Weight(es[1..])
  }

  lemma {:induction false} WeightSnoc(es: seq<Event>, e: Event)
    ensures Weight(es + [e]) == Weight(es) + |e.text|
  {
    if es == [] {
      assert es + [e] == [e];
    } else {
      assert (es + [e])[1..] == es[1..] + [e];
      WeightSnoc(es[1..], e);
    }
  }

  /** What is left of a log when the oldest events are evicted until the rest fits or one event is left. */
  function Kept(limit: nat, es: seq<Event>): (r: seq<Event>)
    ensures |r| <= |es| && (es != [] ==> r != [])
  {
    if |es| <= 1 || Weight(es) <= limit then es else Kept(limit, es[1..])
  }

  lemma {:induction false} KeptIsSuffix(limit: nat, es: seq<Event>)
    ensures Kept(limit, es) == es[|es| - |Kept(limit, es)|..]
  {
    if |es| > 1 && Weight(es) > limit {
      KeptIsSuffix(limit, es[1..]);
    }
  }

  /** The kept events are the longest suffix that fits, or the newest one alone. */
  lemma {:induction false} KeptIsLongest(limit: nat, es: seq<Event>, i: nat)
    requires i <= |es|
    ensures i < |es| - |Kept(limit, es)| ==> Weight(es[i..]) > limit
    ensures i == |es| - |Kept(limit, es)| ==> Weight(es[i..]) <= limit || |es[i..]| == 1
  {
    if |es| > 1 && Weight(es) > limit {
      if i == 0 {
        assert es[0..] == es;
      } else {
        KeptIsLongest(limit, es[1..], i - 1);
        assert es[i..] == es[1..][i - 1..];
      }
    } else {
      assert es[|es| - |es|..] == es;
    }
  }

  lemma KeptUnfolds(limit: nat, es: seq<Event>)
    ensures Kept(limit, es) == if |es| <= 1 || Weight(es) <= limit then es else Kept(limit, es[1..])
  {
  }

  /** Evicting after every event keeps the same events as evicting once at the end. */
  lemma {:induction false} KeptSnoc(limit: nat, es: seq<Event>, e: Event)
    ensures Kept(limit, Kept(limit, es) + [e]) == Kept(limit, es + [e])
  {
    if |es| > 1 && Weight(es) > limit {
      WeightSnoc(es, e);
      assert (es + [e])[1..] == es[1..] + [e];
      KeptSnoc(limit, es[1..], e);
    }
  }

  lemma {:induction false} KeptShrinks(limit: nat, es: seq<Event>, e: Event)
    ensures |Kept(limit, es + [e])| <= |Kept(limit, es)| + 1
  {
    KeptSnoc(limit, es, e);
  }

  /** Events are numbered in the order in which they were pushed. */
  predicate Numbered(all: seq<Event>) {
    forall i :: 0 <= i < |all| ==> all[i].number == i
  }

  /** The retained events a subscriber at `next` has still to see. */
  function From(es: seq<Event>, next: int): (r: seq<Event>) {
    if es == [] || next <= es[0].number then es
    else if next - es[0].number >= |es| then []
    else es[next - es[0].number..]
  }

  class CommandRun {
    const limit: nat
    var events: seq<Event>
    var weight: int
    var nextNumber: nat
    var historyDropped: bool
    var done: bool
    /** Every event ever pushed. */
    ghost var all: seq<Event>

    ghost predicate Valid()
      reads this
    {
      && Numbered(all) && nextNumber == |all|
      && events == Kept(limit, all)
      && weight == Weight(events)
      && historyDropped == (|events| < |all|)
    }

    constructor (limit: nat)
      ensures Valid() && this.limit == limit && all == [] && !done
    {
      this.limit := limit;
      events, weight, nextNumber, historyDropped, done, all := [], 0, 0, false, false, [];
    }

    method Push(kind: Kind, text: string)
      requires Valid()
      modifies this
      ensures Valid() && all == old(all) + [Event(|old(all)|, kind, text)] && done == old(done)
    {
      var event := Event(nextNumber, kind, text);
      nextNumber := nextNumber + 1;
      hide Kept;
      WeightSnoc(events, event);
      KeptSnoc(limit, all, event);
      all := all + [event];
      events := events + [event];
      weight := weight + |text|;
      while weight > limit && |events| > 1
        invariant weight == Weight(events)
        invariant Kept(limit, events) == Kept(limit, all)
        invariant |events| <= |all|
        invariant historyDropped == (|events| < |all|)
        invariant nextNumber == |all| && all == old(all) + [event] && done == old(done)
        decreases |events|
      {
        KeptUnfolds(limit, events);
        weight := weight - |events[0].text|;
        events := events[1..];
        historyDropped := true;
      }
      KeptUnfolds(limit, events);
    }

    /** The end of the command: the last event, and nothing after it. */
    method Finish(failed: bool, text: string)
      requires Valid()
      modifies this
      ensures Valid() && done
      ensures all == old(all) + [Event(|old(all)|, if failed then Failure else Exit, text)]
    {
      Push(if failed then Failure else Exit, text);
      done := true;
    }

    /** The events a subscriber picks up in one look are the newest ones, without a gap. */
    method Pending(next: int) returns (pending: seq<Event>)
      requires Valid()
      ensures pending == From(Kept(limit, all), next)
    {
      KeptIsSuffix(limit, all);
      pending := [];
      for i := 0 to |events|
        invariant pending == From(events[..i], next)
      {
        assert events[..i + 1] == events[..i] + [events[i]];
        assert events[i].number == events[0].number + i;
        if events[i].number >= next {
          pending := pending + [events[i]];
        }
      }
      assert events[..|events|] == events;
    }
  }

  // ---- a subscriber beside the command ----

  /** `next` is the cursor, `batch` what the last look returned and is not delivered yet. */
  datatype Subscriber = Subscriber(next: int, batch: seq<Event>, yielded: seq<Event>, over: bool)

  datatype State = State(limit: nat, from: int, all: seq<Event>, done: bool, sub: Subscriber)

  datatype Step =
    | Push(kind: Kind, text: string)
    | Finish(failed: bool, text: string)
    | Look      // the subscriber reads the log, under the lock
    | Deliver   // it yields one event and is resumed by its reader

  function Fresh(limit: nat, from: int): State {
    State(limit, from, [], false, Subscriber(from, [], [], false))
  }

  predicate Enabled(s: State, step: Step) {
    match step
    case Push(kind, _) => !s.done && kind in {Stdout, Stderr}
    case Finish(_, _) => !s.done
    case Look => !s.sub.over && s.sub.batch == []
    case Deliver => !s.sub.over && s.sub.batch != []
  }

  function Looked(limit: nat, all: seq<Event>, done: bool, sub: Subscriber): Subscriber {
    var pending := From(Kept(limit, all), sub.next);
    if pending == [] && !done then sub else sub.(batch := pending, over := pending == [])
  }

  function Delivered(sub: Subscriber): Subscriber
    requires sub.batch != []
  {
    var e := sub.batch[0];
    Subscriber(e.number + 1, if e.Terminal() then [] else sub.batch[1..], sub.yielded + [e], e.Terminal())
  }

  function Apply(s: State, step: Step): State
    requires Enabled(s, step)
  {
    match step
    case Push(kind, text) => s.(all := s.all + [Event(|s.all|, kind, text)])
    case Finish(failed, text) =>
      s.(all := s.all + [Event(|s.all|, if failed then Failure else Exit, text)], done := true)
    case Look => s.(sub := Looked(s.limit, s.all, s.done, s.sub))
    case Deliver => s.(sub := Delivered(s.sub))
  }

  /** The subscriber's coroutine between its suspension points. */
  class Subscription {
    var next: int
    var batch: seq<Event>
    var over: bool
    ghost var yielded: seq<Event>

    ghost function View(): Subscriber
      reads this
    {
      Subscriber(next, batch, yielded, over)
    }

    constructor (from: int)
      ensures View() == Subscriber(from, [], [], false)
    {
      next, batch, over, yielded := from, [], false, [];
    }

    method LookAt(run: CommandRun)
      requires run.Valid() && !over && batch == []
      modifies this
      ensures View() == Looked(run.limit, run.all, run.done, old(View()))
    {
      var pending := run.Pending(next);
      if pending == [] && !run.done {
        return;
      }
      batch := pending;
      if run.done && pending == [] {
        over := true;
      }
    }

    method Yield() returns (e: Event)
      requires !over && batch != []
      modifies this
      ensures e == old(batch)[0] && View() == Delivered(old(View()))
    {
      e := batch[0];
      next := e.number + 1;
      yielded := yielded + [e];
      batch := batch[1..];
      if e.kind in {Exit, Failure} {
        batch := [];
        over := true;
      }
    }
  }

  // ---- what every run keeps ----

  function Lowest(s: State): nat {
    if s.from < 0 then 0 else s.from
  }

  /** How many events have been evicted. */
  function Gone(s: State): nat {
    |s.all| - |Kept(s.limit, s.all)|
  }

  predicate Logged(s: State, e: Event) {
    e.number < |s.all| && s.all[e.number] == e
  }

  /** Only the last event ends the command. */
  predicate LogInv(s: State) {
    && Numbered(s.all)
    && (s.done ==> s.all != [])
    && forall i :: 0 <= i < |s.all| ==> (s.all[i].Terminal() <==> s.done && i == |s.all| - 1)
  }

  predicate BatchInv(s: State) {
    var b := s.sub.batch;
    && (forall i :: 0 <= i < |b| ==> Logged(s, b[i]) && b[i].number == b[0].number + i)
    && (b != [] ==> !s.sub.over && (b[0].number == s.sub.next || s.sub.next < b[0].number <= Gone(s)))
  }

  predicate YieldInv(s: State) {
    var y := s.sub.yielded;
    && (forall i :: 0 <= i < |y| ==> Logged(s, y[i]) && y[i].number >= s.from)
    && (forall i, j :: 0 <= i < j < |y| ==> y[i].number < y[j].number)
    && s.sub.next == (if y == [] then s.from else y[|y| - 1].number + 1)
  }

  /** What lies behind the cursor was yielded or is evicted. */
  predicate SkipInv(s: State) {
    forall k :: Lowest(s) <= k < s.sub.next && k < |s.all| && k >= Gone(s) ==> s.all[k] in s.sub.yielded
  }

  predicate EndInv(s: State) {
    && (forall i :: 0 <= i < |s.sub.yielded| ==> (s.sub.yielded[i].Terminal() ==> s.sub.over))
    && (s.sub.over ==> s.done && s.sub.next >= |s.all|)
  }

  predicate Inv(s: State) {
    LogInv(s) && BatchInv(s) && YieldInv(s) && SkipInv(s) && EndInv(s)
  }

  lemma PushKeepsInv(s: State, e: Event, done: bool)
    requires Inv(s) && !s.done && e.number == |s.all| && (e.Terminal() <==> done)
    ensures Inv(s.(all := s.all + [e], done := done))
  {
    hide Kept;
    KeptShrinks(s.limit, s.all, e);
    var t := s.(all := s.all + [e], done := done);
    assert Gone(t) >= Gone(s);
    forall k | Lowest(t) <= k < t.sub.next && k < |t.all| && k >= Gone(t)
      ensures t.all[k] in t.sub.yielded
    {
      assert k < |s.all|;
      assert t.all[k] == s.all[k];
    }
  }

  /** A look returns a gapless block up to the newest event, which starts at the cursor unless that was evicted. */
  lemma LookReturns(limit: nat, all: seq<Event>, next: int)
    requires Numbered(all)
    ensures var p, gone := From(Kept(limit, all), next), |all| - |Kept(limit, all)|;
            && |p| <= |all| && p == all[|all| - |p|..]
            && (p == [] <==> all == [] || next >= |all|)
            && (p != [] ==> |all| - |p| == next || next < |all| - |p| == gone)
  {
    hide Kept;
    KeptIsSuffix(limit, all);
  }

  lemma BlockIsNumbered(all: seq<Event>, p: seq<Event>)
    requires Numbered(all) && |p| <= |all| && p == all[|all| - |p|..]
    ensures forall i :: 0 <= i < |p| ==> p[i].number == |all| - |p| + i && p[i] == all[p[i].number]
  {
    forall i | 0 <= i < |p|
      ensures p[i] == all[|all| - |p| + i]
    {
    }
  }

  lemma LookKeepsBatchInv(s: State)
    requires LogInv(s) && BatchInv(s) && Enabled(s, Look)
    ensures var t := Apply(s, Look);
            BatchInv(t) && t.sub.yielded == s.sub.yielded && t.sub.next == s.sub.next
            && (t.sub.over ==> s.done && s.sub.next >= |s.all|)
  {
    hide Kept, From;
    LookReturns(s.limit, s.all, s.sub.next);
    BlockIsNumbered(s.all, From(Kept(s.limit, s.all), s.sub.next));
    assert s.done ==> s.all != [];
    hide Numbered, LogInv;
  }

  lemma LookKeepsInv(s: State)
    requires Inv(s) && Enabled(s, Look)
    ensures Inv(Apply(s, Look))
  {
    hide Kept, From, BatchInv;
    LookKeepsBatchInv(s);
    var t := Apply(s, Look);
    assert t == s.(sub := t.sub);
    hide Apply, Looked;
  }

  lemma DeliverKeepsSkipInv(s: State)
    requires Inv(s) && Enabled(s, Deliver)
    ensures SkipInv(Apply(s, Deliver))
  {
    hide Kept;
    var t := Apply(s, Deliver);
    assert Gone(t) == Gone(s);
    var e := s.sub.batch[0];
    assert Logged(s, e);
    assert t.sub.yielded == s.sub.yielded + [e];
    forall k | Lowest(t) <= k < t.sub.next && k < |t.all| && k >= Gone(t)
      ensures t.all[k] in t.sub.yielded
    {
      if k < s.sub.next {
        assert s.all[k] in s.sub.yielded;
      } else {
        assert k == e.number;
        assert t.sub.yielded[|s.sub.yielded|] == e;
      }
    }
  }

  lemma DeliverKeepsBatchInv(s: State)
    requires LogInv(s) && BatchInv(s) && Enabled(s, Deliver)
    ensures BatchInv(Apply(s, Deliver))
  {
    hide Kept, Gone;
    var b, c := s.sub.batch, Apply(s, Deliver).sub.batch;
    if c != [] {
      forall i | 0 <= i < |c|
        ensures c[i] == b[i + 1] && c[i].number == b[0].number + 1 + i
      {
      }
    }
  }

  lemma DeliverKeepsInv(s: State)
    requires Inv(s) && Enabled(s, Deliver)
    ensures Inv(Apply(s, Deliver))
  {
    hide Kept, Gone;
    DeliverKeepsSkipInv(s);
    DeliverKeepsBatchInv(s);
    hide SkipInv;
    var t, e := Apply(s, Deliver), s.sub.batch[0];
    assert Logged(s, e) && e.number >= s.sub.next;
    hide BatchInv;
    assert YieldInv(t);
    assert EndInv(t);
  }

  lemma StepKeepsInv(s: State, step: Step)
    requires Inv(s) && Enabled(s, step)
    ensures Inv(Apply(s, step))
  {
    match step
    case Push(kind, text) => PushKeepsInv(s, Event(|s.all|, kind, text), false);
    case Finish(failed, text) => PushKeepsInv(s, Event(|s.all|, if failed then Failure else Exit, text), true);
    case Look => LookKeepsInv(s);
    case Deliver => DeliverKeepsInv(s);
  }

  ghost predicate Runs(s: State, steps: seq<Step>, t: State)
    decreases |steps|
  {
    if steps == [] then t == s
    else Enabled(s, steps[0]) && Runs(Apply(s, steps[0]), steps[1..], t)
  }

  lemma {:induction false} RunsKeepInv(s: State, steps: seq<Step>, t: State)
    requires Inv(s) && Runs(s, steps, t)
    ensures Inv(t) && t.limit == s.limit && t.from == s.from
    decreases |steps|
  {
    if steps != [] {
      StepKeepsInv(s, steps[0]);
      RunsKeepInv(Apply(s, steps[0]), steps[1..], t);
    }
  }

  lemma Reachable(limit: nat, from: int, steps: seq<Step>, t: State)
    requires Runs(Fresh(limit, from), steps, t)
    ensures Inv(t) && t.limit == limit && t.from == from
  {
    RunsKeepInv(Fresh(limit, from), steps, t);
  }

  /** Yielded numbers strictly increase; each event is the logged one; a number skipped is the number of an evicted
      event. */
  lemma OnlyEvictedEventsAreSkipped(limit: nat, from: int, steps: seq<Step>, t: State)
    requires Runs(Fresh(limit, from), steps, t)
    ensures forall i :: 0 <= i < |t.sub.yielded| ==> t.sub.yielded[i].number < |t.all|
    ensures forall i :: 0 <= i < |t.sub.yielded| ==> t.sub.yielded[i] == t.all[t.sub.yielded[i].number]
    ensures forall i, j :: 0 <= i < j < |t.sub.yielded| ==> t.sub.yielded[i].number < t.sub.yielded[j].number
    ensures forall k :: Lowest(t) <= k < t.sub.next && k < |t.all| ==> k < Gone(t) || t.all[k] in t.sub.yielded
  {
    Reachable(limit, from, steps, t);
  }

  /** A subscriber ends only after the command, having yielded the last event unless it asked for later ones; and it
      yields nothing after a terminal event. */
  lemma SubscriberSeesTheEnd(limit: nat, from: int, steps: seq<Step>, t: State)
    requires Runs(Fresh(limit, from), steps, t)
    ensures t.sub.over && from < |t.all| ==>
            t.done && t.all != [] && t.sub.yielded != [] && t.sub.yielded[|t.sub.yielded| - 1] == t.all[|t.all| - 1]
    ensures forall i :: 0 <= i < |t.sub.yielded| && t.sub.yielded[i].Terminal() ==>
              t.sub.over && i == |t.sub.yielded| - 1
  {
    hide Kept, Gone;
    Reachable(limit, from, steps, t);
    var y := t.sub.yielded;
    if y != [] {
      assert Logged(t, y[|y| - 1]);
      forall i | 0 <= i < |y| && y[i].Terminal()
        ensures i == |y| - 1
      {
        assert Logged(t, y[i]);
      }
    }
  }

  /** While nothing it asked for is evicted, a subscriber skips nothing. */
  lemma {:induction false} Gapless(s: State, n: nat)
    requires Inv(s) && Gone(s) <= Lowest(s) && n <= |s.sub.yielded|
    ensures forall i :: 0 <= i < n ==> s.sub.yielded[i].number == Lowest(s) + i
  {
    if n > 0 {
      hide Kept;
      Gapless(s, n - 1);
      var y, k := s.sub.yielded, Lowest(s) + n - 1;
      assert n > 1 ==> y[n - 2].number < y[n - 1].number;
      assert k <= y[n - 1].number <= y[|y| - 1].number < |s.all|;
      assert s.all[k] in y;
      var j :| 0 <= j < |y| && y[j] == s.all[k];
      assert y[j].number == k && j >= n - 1;
    }
  }

  /** A subscriber that has ended, and asked for nothing that is evicted by then, has yielded the log from its start. */
  lemma NothingEvictedNothingMissed(limit: nat, from: int, steps: seq<Step>, t: State)
    requires Runs(Fresh(limit, from), steps, t)
    requires t.sub.over && Lowest(t) <= |t.all| && Gone(t) <= Lowest(t)
    ensures t.sub.yielded == t.all[Lowest(t)..]
  {
    hide Kept;
    SubscriberSeesTheEnd(limit, from, steps, t);
    Reachable(limit, from, steps, t);
    var y := t.sub.yielded;
    Gapless(t, |y|);
    if y != [] {
      assert y[|y| - 1].number == Lowest(t) + |y| - 1;
    }
    forall i | 0 <= i < |y|
      ensures y[i] == t.all[Lowest(t)..][i]
    {
    }
  }
}
