/** What the firewall's chains do to packets: rules are tried in order, and a chain jumped to may come back without a
    verdict. */
module FirewallPackets {
  import opened Firewall
  import opened FirewallLaws

  datatype Outcome = Decided(verdict: Target) | Returned | Through

  predicate Matches(m: Match, p: Packet) {
    match m
    case Established => p.established
    case From(interface) => p.input == interface
    case To(interface) => p.output == interface
    case Destination(range) => InRange(p.destination, range)
    case Feature(code) => code in p.features
  }

  predicate Applies(r: Rule, p: Packet) {
    forall k :: 0 <= k < |r.matches| ==> Matches(r.matches[k], p)
  }

  /** The rules of a chain on a packet. Chains cannot jump in circles, so some depth is enough for all of them. */
  function Walk(cs: Chains, rules: seq<Rule>, p: Packet, depth: nat): Outcome
    decreases depth, |rules|
  {
    if rules == [] then Through
    else if !Applies(rules[0], p) then Walk(cs, rules[1..], p, depth)
    else
      match rules[0].target
      case Accept => Decided(Accept)
      case Drop => Decided(Drop)
      case Reject => Decided(Reject)
      case Return => Returned
      case Log => Walk(cs, rules[1..], p, depth)
      case Jump(chain) =>
        if depth == 0 || chain !in cs then Walk(cs, rules[1..], p, depth) else
          var inner := Walk(cs, cs[chain], p, depth - 1);
          if inner.Decided? then inner else Walk(cs, rules[1..], p, depth)
  }

  lemma {:induction false} WalkAppend(cs: Chains, a: seq<Rule>, b: seq<Rule>, p: Packet, depth: nat)
    ensures var first := Walk(cs, a, p, depth);
            Walk(cs, a + b, p, depth) == if first.Through? then Walk(cs, b, p, depth) else first
    decreases |a|
  {
    if a == [] {
      assert a + b == b;
    } else {
      assert (a + b)[0] == a[0] && (a + b)[1..] == a[1..] + b;
      WalkAppend(cs, a[1..], b, p, depth);
    }
  }

  lemma WalkOne(cs: Chains, r: Rule, p: Packet, depth: nat)
    requires r.target == Reject || r.target == Return
    ensures Walk(cs, [r], p, depth) ==
            if !Applies(r, p) then Through else if r.target == Reject then Decided(Reject) else Returned
  {
  }

  predicate Blocked(destination: nat, ranges: seq<Range>) {
    exists k :: 0 <= k < |ranges| && InRange(destination, ranges[k])
  }

  lemma {:induction false} WalkRejects(cs: Chains, i: string, ranges: seq<Range>, p: Packet, depth: nat)
    ensures Walk(cs, RejectRules(i, ranges), p, depth) ==
            if p.input == i && Blocked(p.destination, ranges) then Decided(Reject) else Through
  {
    if ranges != [] {
      var before, last := ranges[..|ranges| - 1], ranges[|ranges| - 1];
      var r := Rule([From(i), Destination(last)], Reject);
      WalkRejects(cs, i, before, p, depth);
      WalkAppend(cs, RejectRules(i, before), [r], p, depth);
      WalkOne(cs, r, p, depth);
      RejectApplies(i, last, p);
      BlockedSnoc(p.destination, before, last);
      assert ranges == before + [last];
    }
  }

  lemma RejectApplies(i: string, range: Range, p: Packet)
    ensures Applies(Rule([From(i), Destination(range)], Reject), p) <==> p.input == i && InRange(p.destination, range)
    ensures Applies(Rule([From(i), To(i)], Reject), p) <==> p.input == i && p.output == i
    ensures Applies(Rule([From(i)], Reject), p) <==> p.input == i
    ensures Applies(RETURN_ESTABLISHED, p) <==> p.established
    ensures Applies(RETURN_ALWAYS, p)
  {
    var a, b, c := Rule([From(i), Destination(range)], Reject), Rule([From(i), To(i)], Reject), Rule([From(i)], Reject);
    assert a.matches[0] == From(i) && a.matches[1] == Destination(range);
    assert b.matches[0] == From(i) && b.matches[1] == To(i);
    assert c.matches[0] == From(i);
    assert RETURN_ESTABLISHED.matches[0] == Established;
  }

  lemma BlockedSnoc(destination: nat, ranges: seq<Range>, range: Range)
    ensures Blocked(destination, ranges + [range]) <==> Blocked(destination, ranges) || InRange(destination, range)
  {
    var all := ranges + [range];
    assert all[|ranges|] == range;
    assert forall k :: 0 <= k < |ranges| ==> all[k] == ranges[k];
  }

  /** What the policy forbids to be forwarded, and to be sent to the host. */
  predicate Forbidden(i: string, isolate: bool, p: Packet) {
    && p.input == i && !p.established
    && (Blocked(p.destination, BLOCKED_RANGES) || (isolate && p.output == i))
  }

  predicate ForbiddenInput(i: string, p: Packet) {
    p.input == i && !p.established
  }

  lemma WalkForward(cs: Chains, i: string, isolate: bool, p: Packet, depth: nat)
    ensures Walk(cs, ForwardRules(i, isolate), p, depth) ==
            if Forbidden(i, isolate, p) then Decided(Reject) else Returned
  {
    hide Applies, RejectRules, BLOCKED_RANGES, Blocked;
    var a, b, c := [RETURN_ESTABLISHED], RejectRules(i, BLOCKED_RANGES), IsolationRules(i, isolate);
    RejectApplies(i, Range(0, 0), p);
    WalkOne(cs, RETURN_ESTABLISHED, p, depth);
    WalkOne(cs, Rule([From(i), To(i)], Reject), p, depth);
    WalkOne(cs, RETURN_ALWAYS, p, depth);
    WalkRejects(cs, i, BLOCKED_RANGES, p, depth);
    WalkAppend(cs, a, b, p, depth);
    WalkAppend(cs, a + b, c, p, depth);
    WalkAppend(cs, a + b + c, [RETURN_ALWAYS], p, depth);
  }

  lemma WalkInput(cs: Chains, i: string, p: Packet, depth: nat)
    ensures Walk(cs, InputRules(i), p, depth) == if ForbiddenInput(i, p) then Decided(Reject) else Returned
  {
    hide Applies;
    RejectApplies(i, Range(0, 0), p);
    var a, b := [RETURN_ESTABLISHED], [Rule([From(i)], Reject)];
    WalkOne(cs, RETURN_ESTABLISHED, p, depth);
    WalkOne(cs, Rule([From(i)], Reject), p, depth);
    WalkOne(cs, RETURN_ALWAYS, p, depth);
    WalkAppend(cs, a, b, p, depth);
    WalkAppend(cs, a + b, [RETURN_ALWAYS], p, depth);
    assert InputRules(i) == a + b + [RETURN_ALWAYS];
  }

  // ---- the whole firewall ----

  predicate OwnChain(c: Chain) {
    c in {Sandbox, SandboxInput}
  }

  /** No jump into the two chains yet. Nothing jumps to INPUT, because it is built in. */
  predicate Unhooked(rules: seq<Rule>) {
    forall k :: 0 <= k < |rules| && rules[k].target.Jump? ==> rules[k].target.chain !in {Sandbox, SandboxInput, Input}
  }

  predicate Fresh(cs: Chains) {
    DockerUser in cs && Input in cs && forall c :: c in cs && !OwnChain(c) ==> Unhooked(cs[c])
  }

  lemma AfterIs(cs: Chains, i: string, isolate: bool)
    requires Fresh(cs)
    ensures var t := After(cs, i, isolate);
            && t.Keys == cs.Keys + {Sandbox, SandboxInput}
            && t[Sandbox] == ForwardRules(i, isolate) && t[SandboxInput] == InputRules(i)
            && t[DockerUser] == [HookRule(i, Sandbox)] + cs[DockerUser]
            && t[Input] == [HookRule(i, SandboxInput)] + cs[Input]
            && forall c :: c in cs && !OwnChain(c) && c !in {DockerUser, Input} ==> t[c] == cs[c]
  {
    hide ForwardRules, InputRules;
    assert HookRule(i, Sandbox) !in cs[DockerUser];
    assert HookRule(i, SandboxInput) !in cs[Input];
  }

  /** The hook decides for its own chain, and otherwise passes the packet on. */
  lemma WalkHook(cs: Chains, i: string, chain: Chain, rules: seq<Rule>, p: Packet, depth: nat)
    requires chain in cs
    ensures var inner := Walk(cs, cs[chain], p, if depth > 0 then depth - 1 else 0);
            Walk(cs, [HookRule(i, chain)] + rules, p, depth) ==
            if depth > 0 && p.input == i && inner.Decided? then inner else Walk(cs, rules, p, depth)
  {
    var h := HookRule(i, chain);
    assert h.matches[0] == From(i);
    assert Applies(h, p) <==> p.input == i;
    assert ([h] + rules)[1..] == rules;
  }

  /** A packet that the policy lets pass is treated as before, wherever in the old chains it is. */
  lemma {:induction false} AllowedIsUnchanged(cs: Chains, i: string, isolate: bool, rules: seq<Rule>, p: Packet, depth: nat)
    requires Fresh(cs) && Unhooked(rules) && !Forbidden(i, isolate, p)
    ensures Walk(After(cs, i, isolate), rules, p, depth) == Walk(cs, rules, p, depth)
    decreases depth, |rules|
  {
    hide After, ForwardRules, InputRules, Forbidden, Applies;
    AfterIs(cs, i, isolate);
    if rules != [] {
      var t := After(cs, i, isolate);
      AllowedIsUnchanged(cs, i, isolate, rules[1..], p, depth);
      var target := rules[0].target;
      if depth > 0 && target.Jump? && target.chain in cs {
        var c := target.chain;
        assert !OwnChain(c) && Unhooked(cs[c]);
        AllowedIsUnchanged(cs, i, isolate, cs[c], p, depth - 1);
        if c == DockerUser {
          WalkHook(t, i, Sandbox, cs[c], p, depth - 1);
          WalkForward(t, i, isolate, p, if depth > 1 then depth - 2 else 0);
        }
      }
    }
  }

  /** A forwarded packet is rejected exactly when it comes from the interface, is not part of an established connection,
      and goes to a private, link-local or shared address or, with isolation, back to the interface. Any other gets the
      verdict it got before. */
  lemma ForwardedPackets(cs: Chains, i: string, isolate: bool, p: Packet, depth: nat)
    requires Fresh(cs) && depth > 0
    ensures var t := RunAll(cs, Plan(i, isolate), false).chains;
            DockerUser in t && Walk(t, t[DockerUser], p, depth) ==
            if p.input == i && !p.established && (Private(p.destination) || (isolate && p.output == i))
            then Decided(Reject) else Walk(cs, cs[DockerUser], p, depth)
  {
    PlanRuns(cs, i, isolate);
    BlockedIff(p.destination);
    hide RunAll, Plan, After, ForwardRules, InputRules, Applies, Fresh, Unhooked, Blocked, BLOCKED_RANGES, Private;
    FreshChains(cs);
    AfterIs(cs, i, isolate);
    var t := After(cs, i, isolate);
    WalkHook(t, i, Sandbox, cs[DockerUser], p, depth);
    WalkForward(t, i, isolate, p, depth - 1);
    if !Forbidden(i, isolate, p) {
      AllowedIsUnchanged(cs, i, isolate, cs[DockerUser], p, depth);
    }
  }

  lemma FreshChains(cs: Chains)
    requires Fresh(cs)
    ensures DockerUser in cs && Input in cs && Unhooked(cs[DockerUser]) && Unhooked(cs[Input])
  {
  }

  /** The same for packets to the host. */
  lemma HostPackets(cs: Chains, i: string, isolate: bool, p: Packet, depth: nat)
    requires Fresh(cs) && depth > 0
    ensures var t := RunAll(cs, Plan(i, isolate), false).chains;
            Input in t && Walk(t, t[Input], p, depth) ==
            if p.input == i && !p.established then Decided(Reject) else Walk(cs, cs[Input], p, depth)
  {
    PlanRuns(cs, i, isolate);
    hide RunAll, Plan, After, ForwardRules, InputRules, Applies, Fresh, Unhooked;
    FreshChains(cs);
    AfterIs(cs, i, isolate);
    var t := After(cs, i, isolate);
    WalkHook(t, i, SandboxInput, cs[Input], p, depth);
    WalkInput(t, i, p, depth - 1);
    if !ForbiddenInput(i, p) {
      AllowedIsUnchanged(cs, i, isolate, cs[Input], p, depth);
    }
  }

  /** Packets from other interfaces, and packets of established connections, are treated as before in every chain that
      was there. */
  lemma OtherPacketsAreUnchanged(cs: Chains, i: string, isolate: bool, c: Chain, p: Packet, depth: nat)
    requires Fresh(cs) && c in cs && !OwnChain(c)
    requires p.input != i || p.established
    ensures var t := RunAll(cs, Plan(i, isolate), false).chains;
            c in t && Walk(t, t[c], p, depth) == Walk(cs, cs[c], p, depth)
  {
    PlanRuns(cs, i, isolate);
    hide RunAll, Plan, After, ForwardRules, InputRules, Applies;
    AfterIs(cs, i, isolate);
    var t := After(cs, i, isolate);
    AllowedIsUnchanged(cs, i, isolate, cs[c], p, depth);
    if c == DockerUser {
      WalkHook(t, i, Sandbox, cs[c], p, depth);
      WalkForward(t, i, isolate, p, if depth > 0 then depth - 1 else 0);
    } else if c == Input {
      WalkHook(t, i, SandboxInput, cs[c], p, depth);
      WalkInput(t, i, p, if depth > 0 then depth - 1 else 0);
    }
  }

  /** Link-local, private and shared addresses, as intervals. */
  predicate Private(d: nat) {
    || Ip(169, 254, 0, 0) <= d <= Ip(169, 254, 255, 255)
    || Ip(10, 0, 0, 0) <= d <= Ip(10, 255, 255, 255)
    || Ip(172, 16, 0, 0) <= d <= Ip(172, 31, 255, 255)
    || Ip(192, 168, 0, 0) <= d <= Ip(192, 168, 255, 255)
    || Ip(100, 64, 0, 0) <= d <= Ip(100, 127, 255, 255)
  }

  /** The blocked ranges are these intervals. */
  lemma BlockedIff(d: nat)
    ensures Blocked(d, BLOCKED_RANGES) <==> Private(d)
  {
    var r := BLOCKED_RANGES;
    Powers();
    hide Pow2;
    assert InRange(d, r[0]) <==> Ip(169, 254, 0, 0) <= d <= Ip(169, 254, 255, 255);
    assert InRange(d, r[1]) <==> Ip(10, 0, 0, 0) <= d <= Ip(10, 255, 255, 255);
    assert InRange(d, r[2]) <==> Ip(172, 16, 0, 0) <= d <= Ip(172, 31, 255, 255);
    assert InRange(d, r[3]) <==> Ip(192, 168, 0, 0) <= d <= Ip(192, 168, 255, 255);
    assert InRange(d, r[4]) <==> Ip(100, 64, 0, 0) <= d <= Ip(100, 127, 255, 255);
    hide InRange;
    assert |r| == 5;
  }

  lemma Powers()
    ensures Pow2(16) == 0x10000 && Pow2(20) == 0x100000 && Pow2(22) == 0x400000 && Pow2(24) == 0x1000000
  {
    assert Pow2(4) == 16;
    assert Pow2(8) == 256;
    assert Pow2(12) == 4096;
  }
}
