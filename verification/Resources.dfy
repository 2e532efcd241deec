/** Resource arithmetic shared by the worker's reservation map and the control plane's ledger. */
module Resources {
  datatype Option<+T> = None | Some(value: T)

  /** What one sandbox asks for. */
  datatype Resources = Resources(cpu: nat, mem: nat)

  /** A sum over sandboxes: CPU, memory and how many there are. */
  datatype Amount = Amount(cpu: int, mem: int, slots: int) {
    function Plus(other: Amount): Amount {
      Amount(cpu + other.cpu, mem + other.mem, slots + other.slots)
    }

    predicate AtMost(other: Amount) {
      cpu <= other.cpu && mem <= other.mem && slots <= other.slots
    }
  }

  /** What a worker may hand out; `slots` is the optional cap on the number of sandboxes. */
  datatype Limits = Limits(cpu: int, mem: int, slots: Option<int>) {
    /** The amount in use respects the limits. */
    predicate Covers(used: Amount) {
      used.cpu <= cpu && used.mem <= mem && (slots.Some? ==> used.slots <= slots.value)
    }

    /** One more sandbox fits beside what is in use. */
    predicate Fits(used: Amount, r: Resources) {
      (slots.Some? ==> used.slots < slots.value) && r.cpu <= cpu - used.cpu && r.mem <= mem - used.mem
    }
  }

  function Unit(r: Resources): Amount {
    Amount(r.cpu, r.mem, 1)
  }

  const NOTHING := Amount(0, 0, 0)

  ghost function Pick(m: map<string, Resources>): (k: string)
    requires m != map[]
    ensures k in m
  {
    var k :| k in m; k
  }

  ghost function Total(m: map<string, Resources>): (t: Amount)
    ensures t.cpu >= 0 && t.mem >= 0 && t.slots >= 0
    decreases m.Keys
  {
    if m == map[] then NOTHING else
      var k := Pick(m);
      Total(m - {k}).Plus(Unit(m[k]))
  }

  /** The sum does not depend on the order in which entries are added. */
  lemma {:induction false} TotalRemove(m: map<string, Resources>, k: string)
    requires k in m
    ensures Total(m) == Total(m - {k}).Plus(Unit(m[k]))
    decreases m.Keys
  {
    var c := Pick(m);
    if c != k {
      TotalRemove(m - {c}, k);
      TotalRemove(m - {k}, c);
      assert (m - {c}) - {k} == (m - {k}) - {c};
    }
  }

  lemma TotalEmpty()
    ensures Total(map[]) == NOTHING
  {
  }

  lemma TotalAdd(m: map<string, Resources>, k: string, r: Resources)
    requires k !in m
    ensures Total(m[k := r]) == Total(m).Plus(Unit(r))
  {
    TotalRemove(m[k := r], k);
    assert m[k := r] - {k} == m;
  }

  /** `part` is `whole` with some entries left out. */
  ghost predicate SubMap(part: map<string, Resources>, whole: map<string, Resources>) {
    forall k :: k in part ==> k in whole && whole[k] == part[k]
  }

  /** Every entry of `m` also stands in one of the other two. */
  ghost predicate Covered(m: map<string, Resources>, a: map<string, Resources>, b: map<string, Resources>) {
    forall k :: k in m ==> (k in a && a[k] == m[k]) || (k in b && b[k] == m[k])
  }

  /** A map covered by two others costs no more than the two together. */
  lemma {:induction false} TotalCovered(m: map<string, Resources>, a: map<string, Resources>, b: map<string, Resources>)
    requires Covered(m, a, b)
    ensures Total(m).AtMost(Total(a).Plus(Total(b)))
    decreases m.Keys
  {
    hide Total;
    if m == map[] {
      TotalEmpty();
    } else {
      var k := Pick(m);
      TotalRemove(m, k);
      if k in a && a[k] == m[k] {
        TotalRemove(a, k);
        TotalCovered(m - {k}, a - {k}, b);
      } else {
        TotalRemove(b, k);
        TotalCovered(m - {k}, a, b - {k});
      }
    }
  }

  /** A sub-map costs no more than the whole. */
  lemma TotalMonotone(part: map<string, Resources>, whole: map<string, Resources>)
    requires SubMap(part, whole)
    ensures Total(part).AtMost(Total(whole))
  {
    TotalCovered(part, whole, map[]);
  }

  lemma PlusNothing(a: Amount)
    ensures a.Plus(NOTHING) == a && NOTHING.Plus(a) == a
  {
  }

  lemma PlusSwap(a: Amount, b: Amount, u: Amount)
    ensures a.Plus(u).Plus(b) == a.Plus(b).Plus(u)
  {
  }

  /** Sums of disjoint maps add up. */
  lemma {:induction false} TotalUnion(a: map<string, Resources>, b: map<string, Resources>)
    requires a.Keys !! b.Keys
    ensures Total(a + b) == Total(a).Plus(Total(b))
    decreases a.Keys
  {
    hide Total;
    if a == map[] {
      assert a + b == b;
      TotalEmpty();
      PlusNothing(Total(b));
    } else {
      var k := Pick(a);
      var rest := a - {k};
      TotalRemove(a, k);
      TotalRemove(a + b, k);
      TotalUnion(rest, b);
      assert (a + b) - {k} == rest + b;
      PlusSwap(Total(rest), Total(b), Unit(a[k]));
    }
  }

  /** The sum over a dict's values, as the accounting properties compute it. */
  method SumOf(m: map<string, Resources>) returns (t: Amount)
    ensures t == Total(m)
  {
    t := NOTHING;
    PlusNothing(Total(m));
    var left := m;
    while left != map[]
      invariant Total(m) == t.Plus(Total(left))
      decreases left.Keys
    {
      var k :| k in left;
      TotalRemove(left, k);
      t := t.Plus(Unit(left[k]));
      left := left - {k};
    }
    PlusNothing(t);
  }
}
