/** Time-ordered identifiers (utils/ids.py, `uuid7`): version 7 of RFC 9562, sections 5.7 and 6.2. */
module Uuid7 {
  import opened Bytes

  // ---- bit operations on natural numbers ----

  function Pow2(n: nat): (p: nat)
    ensures p > 0
  {
    if n == 0 then 1 else 2 * Pow2(n - 1)
  }

  function Shl(a: nat, n: nat): nat {
    a * Pow2(n)
  }

  function Shr(a: nat, n: nat): nat {
    if n == 0 then a else Shr(a / 2, n - 1)
  }

  /** Bitwise and, bitwise or. */
  function And(a: nat, b: nat): nat {
    if a == 0 || b == 0 then 0 else (if a % 2 == 1 && b % 2 == 1 then 1 else 0) + 2 * And(a / 2, b / 2)
  }

  function Or(a: nat, b: nat): nat
    decreases a + b
  {
    if a == 0 then b else if b == 0 then a
    else (if a % 2 == 1 || b % 2 == 1 then 1 else 0) + 2 * Or(a / 2, b / 2)
  }

  lemma AndOdd(a: nat, m: nat)
    ensures And(a, 2 * m + 1) == a % 2 + 2 * And(a / 2, m)
  {
  }

  /** Masking keeps the low bits. */
  lemma {:induction false} AndMask(a: nat, n: nat)
    ensures And(a, Pow2(n) - 1) == a % Pow2(n)
    decreases n
  {
    if n == 0 {
      assert Pow2(n) == 1;
    } else {
      AndMask(a / 2, n - 1);
      AndDouble(a, Pow2(n - 1));
    }
  }

  lemma AndDouble(a: nat, p: nat)
    requires p > 0 && And(a / 2, p - 1) == (a / 2) % p
    ensures And(a, 2 * p - 1) == a % (2 * p)
  {
    hide And;
    AndOdd(a, p - 1);
    DivModDouble(a, p);
  }

  /** Shifting right divides. */
  lemma {:induction false} ShrIs(a: nat, n: nat)
    ensures Shr(a, n) == a / Pow2(n)
  {
    if n > 0 {
      var p := Pow2(n - 1);
      ShrIs(a / 2, n - 1);
      DivModDouble(a, p);
    }
  }

  lemma DivModDouble(a: nat, p: nat)
    requires p > 0
    ensures a % (2 * p) == a % 2 + 2 * (a / 2 % p) && a / (2 * p) == a / 2 / p
  {
    var q, r := a / 2 / p, a / 2 % p;
    assert a == 2 * (a / 2) + a % 2;
    assert a / 2 == p * q + r;
    assert a == (2 * p) * q + (2 * r + a % 2);
    DivModUnique(a, 2 * p, q, 2 * r + a % 2);
  }

  /** Where one operand ends before the other begins, "or" is addition. */
  lemma {:induction false} OrDisjoint(a: nat, b: nat, n: nat)
    requires b < Pow2(n)
    ensures Or(a * Pow2(n), b) == a * Pow2(n) + b
    decreases n
  {
    if n > 0 && a > 0 && b > 0 {
      var p := Pow2(n - 1);
      assert a * Pow2(n) == 2 * (a * p);
      OrDisjoint(a, b / 2, n - 1);
    }
  }

  // ---- the generator ----

  const TIMESTAMP := 0x1_0000_0000_0000                    // 2^48
  const LOW := 0x4000_0000_0000_0000                       // 2^62
  const COUNTER := 0x1000 * LOW                            // 2^74

  /** The counter's upper and lower part stand on both sides of the variant. */
  function Layout(ts: nat, rand: nat): nat {
    ((((ts % TIMESTAMP) * 16 + 7) * 0x1000 + rand / LOW % 0x1000) * 4 + 2) * LOW + rand % LOW
  }

  lemma SmallPowers()
    ensures Pow2(2) == 4 && Pow2(4) == 16 && Pow2(6) == 64 && Pow2(8) == 256 && Pow2(12) == 0x1000
  {
    assert Pow2(2) == 4;
    assert Pow2(4) == 16;
    assert Pow2(6) == 64;
    assert Pow2(8) == 256;
    assert Pow2(10) == 1024;
  }

  lemma Powers()
    ensures Pow2(48) == TIMESTAMP && Pow2(62) == LOW
    ensures Pow2(64) == 4 * LOW && Pow2(76) == 0x4000 * LOW && Pow2(80) == 0x40000 * LOW
  {
    hide Pow2;
    SmallPowers();
    PowAdd(8, 8);
    PowAdd(16, 16);
    PowAdd(32, 16);
    PowAdd(48, 12);
    PowAdd(60, 2);
    PowAdd(62, 2);
    PowAdd(64, 12);
    PowAdd(76, 4);
  }

  lemma {:induction false} PowAdd(a: nat, b: nat)
    ensures Pow2(a + b) == Pow2(a) * Pow2(b)
    decreases b
  {
    if b > 0 {
      PowAdd(a, b - 1);
    }
  }

  datatype State = State(ts: nat, rand: nat)

  /** One reading of the clock and of the random source. The source is read only when the clock has moved on. */
  function Next(s: State, clock: nat, random: nat): State {
    if clock <= s.ts then s.(rand := s.rand + 1) else State(clock, random)
  }

  class Generator {
    var lastTs: nat
    var lastRand: nat

    function View(): State
      reads this
    {
      State(lastTs, lastRand)
    }

    constructor ()
      ensures View() == State(0, 0)
    {
      lastTs, lastRand := 0, 0;
    }

    /** The value carries version 7, the variant of RFC 9562, the time of the clock or, when that has not moved on, the
        last time, and the random bits drawn now or, in the same case, the counter. */
    method Generate(clock: nat, random: nat) returns (value: nat)
      modifies this
      ensures View() == Next(old(View()), clock, random)
      ensures value == Layout(lastTs, lastRand)
      ensures lastTs == if clock > old(lastTs) then clock else old(lastTs)
      ensures lastRand == if clock > old(lastTs) then random else old(lastRand) + 1
      ensures value / 0x1000_0000_0000_0000_0000 % 16 == 7 && value / 0x4000_0000_0000_0000 % 4 == 2
      ensures value / 0x1_0000_0000_0000_0000_0000 == lastTs % 0x1_0000_0000_0000
      ensures value / 0x1_0000_0000_0000_0000 % 0x1000 == lastRand / 0x4000_0000_0000_0000 % 0x1000
      ensures value % 0x4000_0000_0000_0000 == lastRand % 0x4000_0000_0000_0000
    {
      var ts, rand := clock, random;
      if ts <= lastTs {
        ts := lastTs;
        lastRand := lastRand + 1;
        rand := lastRand;
      } else {
        lastTs := ts;
        lastRand := rand;
      }
      value := Pack(ts, rand);
      LayoutSplits(ts, rand);
    }
  }

  lemma LayoutSplits(ts: nat, rand: nat)
    ensures var value := Layout(ts, rand);
            && value / 0x1000_0000_0000_0000_0000 % 16 == 7 && value / 0x4000_0000_0000_0000 % 4 == 2
            && value / 0x1_0000_0000_0000_0000_0000 == ts % 0x1_0000_0000_0000
            && value / 0x1_0000_0000_0000_0000 % 0x1000 == rand / 0x4000_0000_0000_0000 % 0x1000
            && value % 0x4000_0000_0000_0000 == rand % 0x4000_0000_0000_0000
  {
    var t, a, b := ts % TIMESTAMP, rand / LOW % 0x1000, rand % LOW;
    TimeAndVersion(ts, rand);
    LowParts(Layout(ts, rand), t, a, b);
  }

  lemma LowParts(value: nat, t: nat, a: nat, b: nat)
    requires a < 0x1000 && b < LOW && value == (((t * 16 + 7) * 0x1000 + a) * 4 + 2) * LOW + b
    ensures value / LOW % 4 == 2 && value / (4 * LOW) % 0x1000 == a && value % LOW == b
  {
    DivModUnique(value, LOW, ((t * 16 + 7) * 0x1000 + a) * 4 + 2, b);
    DivModUnique(value, 4 * LOW, (t * 16 + 7) * 0x1000 + a, 2 * LOW + b);
  }

  method Pack(ts: nat, rand: nat) returns (value: nat)
    ensures value == Layout(ts, rand)
  {
    hide *;
    var randA := And(Shr(rand, 62), 0x0FFF);
    var randB := And(rand, Pow2(62) - 1);
    value := Shl(And(ts, Pow2(48) - 1), 80);
    value := Or(value, Shl(7, 76));
    value := Or(value, Shl(randA, 64));
    value := Or(value, Shl(2, 62));
    value := Or(value, randB);
    PackIsLayout(ts, rand);
  }

  lemma Masks(ts: nat, rand: nat)
    ensures And(ts, Pow2(48) - 1) == ts % TIMESTAMP
    ensures And(Shr(rand, 62), 0x0FFF) == rand / LOW % 0x1000
    ensures And(rand, Pow2(62) - 1) == rand % LOW
  {
    Powers();
    AndMask(ts, 48);
    SmallPowers();
    ShrIs(rand, 62);
    AndMask(Shr(rand, 62), 12);
    AndMask(rand, 62);
  }

  lemma PackIsLayout(ts: nat, rand: nat)
    ensures Or(Or(Or(Or(Shl(And(ts, Pow2(48) - 1), 80), Shl(7, 76)), Shl(And(Shr(rand, 62), 0x0FFF), 64)), Shl(2, 62)),
               And(rand, Pow2(62) - 1)) == Layout(ts, rand)
  {
    hide And, Or, Pow2, Shr;
    Powers();
    Masks(ts, rand);
    var t, a, b := ts % TIMESTAMP, rand / LOW % 0x1000, rand % LOW;
    OrDisjoint(t, Shl(7, 76), 80);
    OrDisjoint(16 * t + 7, Shl(a, 64), 76);
    OrDisjoint((16 * t + 7) * 0x1000 + a, Shl(2, 62), 64);
    OrDisjoint(((16 * t + 7) * 0x1000 + a) * 4 + 2, b, 62);
  }

  // ---- what an identifier says ----

  function Version(value: nat): nat {
    value / (0x4000 * LOW) % 16
  }

  function Variant(value: nat): nat {
    value / LOW % 4
  }

  function Time(value: nat): nat {
    value / (0x40000 * LOW)
  }

  function Random(value: nat): nat {
    value / (4 * LOW) % 0x1000 * LOW + value % LOW
  }

  lemma TimeAndVersion(ts: nat, rand: nat)
    ensures Version(Layout(ts, rand)) == 7 && Time(Layout(ts, rand)) == ts % TIMESTAMP
  {
    var t, a, b := ts % TIMESTAMP, rand / LOW % 0x1000, rand % LOW;
    DivModUnique(Layout(ts, rand), 0x4000 * LOW, t * 16 + 7, a * 4 * LOW + 2 * LOW + b);
    DivModUnique(Layout(ts, rand), 0x40000 * LOW, t, 7 * 0x4000 * LOW + a * 4 * LOW + 2 * LOW + b);
  }

  lemma VariantAndRandom(ts: nat, rand: nat)
    ensures Variant(Layout(ts, rand)) == 2 && Random(Layout(ts, rand)) == rand % COUNTER
  {
    var t, a, b := ts % TIMESTAMP, rand / LOW % 0x1000, rand % LOW;
    Split(rand);
    DivModUnique(Layout(ts, rand), LOW, ((t * 16 + 7) * 0x1000 + a) * 4 + 2, b);
    DivModUnique(Layout(ts, rand), 4 * LOW, (t * 16 + 7) * 0x1000 + a, 2 * LOW + b);
  }

  /** Every part of an identifier can be read back; it has 128 bits. */
  lemma PartsAreRecovered(ts: nat, rand: nat)
    ensures var v := Layout(ts, rand);
            && Version(v) == 7 && Variant(v) == 2
            && Time(v) == ts % TIMESTAMP && Random(v) == rand % COUNTER
            && v < 0x40000 * LOW * TIMESTAMP
  {
    hide Version, Variant, Time, Random;
    TimeAndVersion(ts, rand);
    VariantAndRandom(ts, rand);
  }

  lemma Split(rand: nat)
    ensures rand % COUNTER == rand / LOW % 0x1000 * LOW + rand % LOW
  {
    var q := rand / LOW;
    assert rand == LOW * q + rand % LOW;
    assert q == 0x1000 * (q / 0x1000) + q % 0x1000;
    DivModUnique(rand, COUNTER, q / 0x1000, q % 0x1000 * LOW + rand % LOW);
  }

  /** Identifiers are ordered by time, then by counter. */
  lemma OrderIs(ts1: nat, rand1: nat, ts2: nat, rand2: nat)
    ensures Layout(ts1, rand1) < Layout(ts2, rand2) <==>
            || ts1 % TIMESTAMP < ts2 % TIMESTAMP
            || (ts1 % TIMESTAMP == ts2 % TIMESTAMP && rand1 % COUNTER < rand2 % COUNTER)
  {
    Split(rand1);
    Split(rand2);
  }

  // ---- sequences of identifiers ----

  /** A reading of the clock, and the random bits that would be drawn. */
  datatype Reading = Reading(clock: nat, random: nat)

  predicate Readable(r: Reading) {
    r.clock < TIMESTAMP && r.random < COUNTER
  }

  /** The generator's states after each of the readings. */
  function States(s: State, rs: seq<Reading>): (r: seq<State>)
    ensures |r| == |rs|
    decreases |rs|
  {
    if rs == [] then [] else
      var next := Next(s, rs[0].clock, rs[0].random);
      [next] + States(next, rs[1..])
  }

  /** Identifiers carry the latest reading of the clock: every state's time is a reading made so far, or the time at the
      start, and none of these is later. */
  lemma {:induction false} TimeIsLatest(s: State, rs: seq<Reading>, k: nat)
    requires k < |rs|
    ensures var t := States(s, rs)[k].ts;
            && s.ts <= t && (forall i :: 0 <= i <= k ==> rs[i].clock <= t)
            && (t == s.ts || exists i :: 0 <= i <= k && rs[i].clock == t)
    decreases k
  {
    var next := Next(s, rs[0].clock, rs[0].random);
    if k > 0 {
      TimeIsLatest(next, rs[1..], k - 1);
      var t := States(next, rs[1..])[k - 1].ts;
      forall i | 0 <= i <= k
        ensures rs[i].clock <= t
      {
        assert i > 0 ==> rs[1..][i - 1] == rs[i];
      }
      if t != s.ts && t != rs[0].clock {
        var i :| 0 <= i <= k - 1 && rs[1..][i].clock == t;
        assert rs[i + 1].clock == t;
      }
    }
  }

  predicate InRange(s: State) {
    s.ts < TIMESTAMP
  }

  /** One identifier is greater than the one before exactly when the counter did not run over. */
  lemma NextIsGreaterIff(s: State, r: Reading)
    requires InRange(s) && s.rand < COUNTER && Readable(r)
    ensures var t := Next(s, r.clock, r.random);
            && InRange(t) && t.rand <= COUNTER
            && (Layout(s.ts, s.rand) < Layout(t.ts, t.rand) <==> t.rand < COUNTER)
  {
    hide Layout;
    var t := Next(s, r.clock, r.random);
    OrderIs(s.ts, s.rand, t.ts, t.rand);
    SmallMod(s.ts, t.ts, TIMESTAMP);
    SmallMod(s.rand, t.rand, COUNTER);
  }

  lemma SmallMod(a: nat, b: nat, n: nat)
    requires a < n && b <= n
    ensures a % n == a && b % n == if b == n then 0 else b
  {
    DivModUnique(a, n, 0, a);
    DivModUnique(b, n, if b == n then 1 else 0, if b == n then 0 else b);
  }

  predicate Increasing(ss: seq<State>) {
    forall i, j :: 0 <= i < j < |ss| ==> Layout(ss[i].ts, ss[i].rand) < Layout(ss[j].ts, ss[j].rand)
  }

  lemma IncreasingCons(s: State, ss: seq<State>)
    requires ss != [] && Layout(s.ts, s.rand) < Layout(ss[0].ts, ss[0].rand)
    ensures Increasing([s] + ss) <==> Increasing(ss)
  {
    hide Layout;
    var all := [s] + ss;
    if Increasing(all) {
      forall i, j | 0 <= i < j < |ss|
        ensures Layout(ss[i].ts, ss[i].rand) < Layout(ss[j].ts, ss[j].rand)
      {
        assert all[i + 1] == ss[i] && all[j + 1] == ss[j];
      }
    }
    if Increasing(ss) {
      forall i, j | 0 <= i < j < |all|
        ensures Layout(all[i].ts, all[i].rand) < Layout(all[j].ts, all[j].rand)
      {
        assert all[j] == ss[j - 1];
        if i > 0 {
          assert all[i] == ss[i - 1];
        }
      }
    }
  }

  predicate Fits(ss: seq<State>) {
    forall i :: 0 <= i < |ss| ==> ss[i].rand < COUNTER
  }

  /** Whatever the clock does, identifiers strictly increase as long as the 74-bit counter does not run over, and no
      longer. */
  lemma {:induction false} IncreasingIff(s: State, rs: seq<Reading>)
    requires InRange(s) && s.rand < COUNTER && forall i :: 0 <= i < |rs| ==> Readable(rs[i])
    ensures Increasing([s] + States(s, rs)) <==> Fits(States(s, rs))
    decreases |rs|
  {
    hide Layout;
    if rs != [] {
      var t := Next(s, rs[0].clock, rs[0].random);
      NextIsGreaterIff(s, rs[0]);
      var rest := States(t, rs[1..]);
      if t.rand < COUNTER {
        IncreasingIff(t, rs[1..]);
      }
      IncreasingStep(s, t, rest);
    }
  }

  lemma IncreasingStep(s: State, t: State, rest: seq<State>)
    requires Layout(s.ts, s.rand) < Layout(t.ts, t.rand) <==> t.rand < COUNTER
    requires t.rand < COUNTER ==> (Increasing([t] + rest) <==> Fits(rest))
    ensures Increasing([s] + ([t] + rest)) <==> Fits([t] + rest)
  {
    hide Layout;
    FitsCons(t, rest);
    if t.rand < COUNTER {
      IncreasingCons(s, [t] + rest);
    } else {
      var all := [s] + ([t] + rest);
      assert all[0] == s && all[1] == t;
    }
  }

  lemma FitsCons(t: State, rest: seq<State>)
    ensures Fits([t] + rest) <==> t.rand < COUNTER && Fits(rest)
  {
    var all := [t] + rest;
    assert all[0] == t && forall i :: 0 <= i < |rest| ==> all[i + 1] == rest[i];
  }
}
