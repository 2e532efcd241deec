/** What the firewall plan does to the chains, and what the chains then do to packets. */
module FirewallLaws {
  import opened Firewall

  // ---- the chains after a plan ----

  function Hooked(rules: seq<Rule>, hook: Rule): seq<Rule> {
    if hook in rules then rules else [hook] + rules
  }

  function HookedIn(cs: Chains, parent: Chain, hook: Rule): Chains {
    if parent in cs then cs[parent := Hooked(cs[parent], hook)] else cs
  }

  function After(cs: Chains, i: string, isolate: bool): Chains {
    var forward := HookedIn(cs[Sandbox := ForwardRules(i, isolate)], DockerUser, HookRule(i, Sandbox));
    HookedIn(forward[SandboxInput := InputRules(i)], Input, HookRule(i, SandboxInput))
  }

  /** A parent chain that is missing costs a warning. */
  function Missing(cs: Chains, parent: Chain, hook: Rule): seq<Command> {
    if parent in cs then [] else [Insert(parent, hook)]
  }

  lemma {:induction false} RunAppends(cs: Chains, chain: Chain, rules: seq<Rule>, rest: seq<Command>)
    requires chain in cs && forall k :: 0 <= k < |rules| ==> !rules[k].target.Jump?
    ensures RunAll(cs, Appends(chain, rules) + rest, false) == RunAll(cs[chain := cs[chain] + rules], rest, false)
    decreases |rules|
  {
    if rules == [] {
      assert Appends(chain, rules) + rest == rest;
      assert cs[chain] + rules == cs[chain];
      assert cs[chain := cs[chain]] == cs;
    } else {
      var cs2 := cs[chain := cs[chain] + [rules[0]]];
      var plan := Appends(chain, rules) + rest;
      assert plan[0] == Append(chain, rules[0]);
      assert plan[1..] == Appends(chain, rules[1..]) + rest;
      RunAppends(cs2, chain, rules[1..], rest);
      assert cs[chain] + [rules[0]] + rules[1..] == cs[chain] + rules;
      assert cs2[chain := cs[chain] + rules] == cs[chain := cs[chain] + rules];
    }
  }

  /** A chain is rebuilt whether it existed or not. */
  lemma RunRebuild(cs: Chains, chain: Chain, rules: seq<Rule>, rest: seq<Command>)
    requires forall k :: 0 <= k < |rules| ==> !rules[k].target.Jump?
    ensures RunAll(cs, Rebuild(chain, rules) + rest, false) == RunAll(cs[chain := rules], rest, false)
  {
    var plan, empty := Rebuild(chain, rules) + rest, cs[chain := []];
    assert plan[0] == New(chain);
    assert plan[1..][0] == Flush(chain);
    assert plan[1..][1..] == Appends(chain, rules) + rest;
    assert Exec(Exec(cs, New(chain)), Flush(chain)) == empty;
    RunAppends(empty, chain, rules, rest);
    assert [] + rules == rules;
    assert empty[chain := rules] == cs[chain := rules];
  }

  /** The check decides whether the insert runs. */
  lemma RunHook(cs: Chains, parent: Chain, i: string, chain: Chain, rest: seq<Command>)
    requires chain in cs
    ensures var r := RunAll(HookedIn(cs, parent, HookRule(i, chain)), rest, false);
            RunAll(cs, Hook(parent, i, chain) + rest, false) ==
            Applied(r.chains, Missing(cs, parent, HookRule(i, chain)) + r.warnings)
  {
    var plan := Hook(parent, i, chain) + rest;
    assert plan[0] == Check(parent, HookRule(i, chain));
    assert plan[1..][0] == Insert(parent, HookRule(i, chain));
    assert plan[1..][1..] == rest;
    var r := RunAll(HookedIn(cs, parent, HookRule(i, chain)), rest, false);
    assert [] + r.warnings == r.warnings;
    if parent in cs && HookRule(i, chain) in cs[parent] {
      assert cs[parent := cs[parent]] == cs;
    }
  }

  lemma {:induction false} RejectRulesAre(i: string, ranges: seq<Range>)
    ensures |RejectRules(i, ranges)| == |ranges|
    ensures forall k :: 0 <= k < |ranges| ==> RejectRules(i, ranges)[k] == Rule([From(i), Destination(ranges[k])], Reject)
  {
    if ranges != [] {
      RejectRulesAre(i, ranges[..|ranges| - 1]);
    }
  }

  /** From any chains: the two chains are rebuilt, each hook is there once more or as often as before, and the only
      warnings are for missing parent chains. */
  lemma PlanRuns(cs: Chains, i: string, isolate: bool)
    ensures RunAll(cs, Plan(i, isolate), false) ==
            Applied(After(cs, i, isolate), Missing(cs, DockerUser, HookRule(i, Sandbox))
                                           + Missing(cs, Input, HookRule(i, SandboxInput)))
  {
    var h1, h2 := Hook(DockerUser, i, Sandbox), Hook(Input, i, SandboxInput);
    var r1, r2 := Rebuild(Sandbox, ForwardRules(i, isolate)), Rebuild(SandboxInput, InputRules(i));
    RejectRulesAre(i, BLOCKED_RANGES);
    NoJumpsInside(i, isolate);
    var c1 := cs[Sandbox := ForwardRules(i, isolate)];
    var c2 := HookedIn(c1, DockerUser, HookRule(i, Sandbox));
    var c3 := c2[SandboxInput := InputRules(i)];
    PlanIs(i, isolate);
    hide Hook, Rebuild, RunAll, ForwardRules, InputRules, HookRule, Plan;
    RunRebuild(cs, Sandbox, ForwardRules(i, isolate), h1 + (r2 + (h2 + [])));
    RunHook(c1, DockerUser, i, Sandbox, r2 + (h2 + []));
    RunRebuild(c2, SandboxInput, InputRules(i), h2 + []);
    RunHook(c3, Input, i, SandboxInput, []);
    RunNothing(HookedIn(c3, Input, HookRule(i, SandboxInput)));
  }

  lemma RunNothing(cs: Chains)
    ensures RunAll(cs, [], false) == Applied(cs, [])
  {
  }

  lemma PlanIs(i: string, isolate: bool)
    ensures Plan(i, isolate) == Rebuild(Sandbox, ForwardRules(i, isolate)) + (Hook(DockerUser, i, Sandbox)
                                + (Rebuild(SandboxInput, InputRules(i)) + (Hook(Input, i, SandboxInput) + [])))
  {
    hide Hook, Rebuild, ForwardRules, InputRules;
  }

  lemma NoJumpsInside(i: string, isolate: bool)
    ensures forall k :: 0 <= k < |ForwardRules(i, isolate)| ==> !ForwardRules(i, isolate)[k].target.Jump?
    ensures forall k :: 0 <= k < |InputRules(i)| ==> !InputRules(i)[k].target.Jump?
  {
    RejectRulesAre(i, BLOCKED_RANGES);
  }

  /** The plan runs without a warning exactly when both parent chains are there. */
  lemma NoWarningsIff(cs: Chains, i: string, isolate: bool)
    ensures RunAll(cs, Plan(i, isolate), false).warnings == [] <==> DockerUser in cs && Input in cs
  {
    PlanRuns(cs, i, isolate);
  }

  /** A second application changes nothing. */
  lemma PlanIsIdempotent(cs: Chains, i: string, isolate: bool)
    ensures var once := RunAll(cs, Plan(i, isolate), false); RunAll(once.chains, Plan(i, isolate), false) == once
  {
    PlanRuns(cs, i, isolate);
    PlanRuns(After(cs, i, isolate), i, isolate);
    AfterTwice(cs, i, isolate);
  }

  lemma AfterTwice(cs: Chains, i: string, isolate: bool)
    ensures After(After(cs, i, isolate), i, isolate) == After(cs, i, isolate)
    ensures (DockerUser in After(cs, i, isolate) <==> DockerUser in cs) && (Input in After(cs, i, isolate) <==> Input in cs)
  {
    hide ForwardRules, InputRules, HookRule;
  }

  function AtLeastOne(n: nat): nat {
    if n == 0 then 1 else n
  }

  /** Each hook is there once, or as often as before. */
  lemma HooksOnce(cs: Chains, i: string, isolate: bool)
    requires DockerUser in cs && Input in cs
    ensures var cs2, h := After(cs, i, isolate), HookRule(i, Sandbox);
            multiset(cs2[DockerUser])[h] == AtLeastOne(multiset(cs[DockerUser])[h])
    ensures var cs2, h := After(cs, i, isolate), HookRule(i, SandboxInput);
            multiset(cs2[Input])[h] == AtLeastOne(multiset(cs[Input])[h])
  {
    hide ForwardRules, InputRules, HookRule;
    HookedCount(cs[DockerUser], HookRule(i, Sandbox));
    HookedCount(cs[Input], HookRule(i, SandboxInput));
  }

  lemma HookedCount(rules: seq<Rule>, h: Rule)
    ensures multiset(Hooked(rules, h))[h] == AtLeastOne(multiset(rules)[h])
  {
    if h !in rules {
      assert multiset([h] + rules) == multiset{h} + multiset(rules);
    }
  }
}
