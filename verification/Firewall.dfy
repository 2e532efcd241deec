/** The firewall plan for the sandbox network, run by a small interpreter over iptables chains (worker/firewall.py). An
    argument array is represented by the command it stands for. */
module Firewall {
  import opened Resources

  // ---- iptables ----

  /** A range of IPv4 addresses in CIDR notation. */
  datatype Range = Range(base: nat, bits: nat)

  function Pow2(n: nat): (p: nat)
    ensures p > 0
  {
    if n == 0 then 1 else 2 * Pow2(n - 1)
  }

  predicate InRange(address: nat, range: Range) {
    range.bits <= 32 && address / Pow2(32 - range.bits) == range.base / Pow2(32 - range.bits)
  }

  /** `features` stands for whatever other rules may look at. */
  datatype Packet = Packet(input: string, output: string, destination: nat, established: bool, features: set<int>)

  datatype Match = Established | From(interface: string) | To(interface: string) | Destination(range: Range)
                 | Feature(code: int)

  datatype Chain = Sandbox | SandboxInput | DockerUser | Input | Other(name: string)

  datatype Target = Accept | Drop | Reject | Return | Log | Jump(chain: Chain)

  datatype Rule = Rule(matches: seq<Match>, target: Target)

  type Chains = map<Chain, seq<Rule>>

  datatype Command =
    | New(chain: Chain)                // -N
    | Flush(chain: Chain)              // -F
    | Append(chain: Chain, rule: Rule) // -A
    | Check(chain: Chain, rule: Rule)  // -C
    | Insert(chain: Chain, rule: Rule) // -I, at position 1

  predicate Known(cs: Chains, rule: Rule) {
    rule.target.Jump? ==> rule.target.chain in cs
  }

  /** Whether a command succeeds. */
  predicate Succeeds(cs: Chains, c: Command) {
    match c
    case New(chain) => chain !in cs
    case Flush(chain) => chain in cs
    case Append(chain, rule) => chain in cs && Known(cs, rule)
    case Check(chain, rule) => chain in cs && rule in cs[chain]
    case Insert(chain, rule) => chain in cs && Known(cs, rule)
  }

  /** A command that fails changes nothing. */
  function Exec(cs: Chains, c: Command): Chains {
    if !Succeeds(cs, c) then cs else
      match c
      case New(chain) => cs[chain := []]
      case Flush(chain) => cs[chain := []]
      case Append(chain, rule) => cs[chain := cs[chain] + [rule]]
      case Check(_, _) => cs
      case Insert(chain, rule) => cs[chain := [rule] + cs[chain]]
  }

  class Host {
    var chains: Chains

    method Run(c: Command) returns (ok: bool)
      modifies this
      ensures ok == Succeeds(old(chains), c) && chains == Exec(old(chains), c)
    {
      ok := Succeeds(chains, c);
      chains := Exec(chains, c);
    }
  }

  // ---- the plan ----

  function Ip(a: nat, b: nat, c: nat, d: nat): nat {
    ((a * 256 + b) * 256 + c) * 256 + d
  }

  const BLOCKED_RANGES := [
    Range(Ip(169, 254, 0, 0), 16),
    Range(Ip(10, 0, 0, 0), 8),
    Range(Ip(172, 16, 0, 0), 12),
    Range(Ip(192, 168, 0, 0), 16),
    Range(Ip(100, 64, 0, 0), 10)
  ]

  const RETURN_ESTABLISHED := Rule([Established], Return)

  const RETURN_ALWAYS := Rule([], Return)

  predicate InterfaceChar(c: char) {
    'A' <= c <= 'Z' || 'a' <= c <= 'z' || '0' <= c <= '9' || c in "_.-"
  }

  /** One to fifteen of these characters; the pattern's `$` also lets a final line feed pass. */
  predicate ValidInterface(s: string) {
    var name := Trimmed(s);
    1 <= |name| <= 15 && forall i :: 0 <= i < |name| ==> InterfaceChar(name[i])
  }

  function Trimmed(s: string): (name: string)
    ensures if s != "" && s[|s| - 1] == '\n' then s == name + "\n" else s == name
  {
    if s != "" && s[|s| - 1] == '\n' then s[..|s| - 1] else s
  }

  function RejectRules(i: string, ranges: seq<Range>): seq<Rule> {
    if ranges == [] then [] else
      RejectRules(i, ranges[..|ranges| - 1]) + [Rule([From(i), Destination(ranges[|ranges| - 1])], Reject)]
  }

  function IsolationRules(i: string, isolate: bool): seq<Rule> {
    if isolate then [Rule([From(i), To(i)], Reject)] else []
  }

  /** The chain for forwarded packets; `isolate` when the network's subnet is known. */
  function ForwardRules(i: string, isolate: bool): seq<Rule> {
    [RETURN_ESTABLISHED] + RejectRules(i, BLOCKED_RANGES) + IsolationRules(i, isolate) + [RETURN_ALWAYS]
  }

  /** The chain for packets to the host. */
  function InputRules(i: string): seq<Rule> {
    [RETURN_ESTABLISHED, Rule([From(i)], Reject), RETURN_ALWAYS]
  }

  function HookRule(i: string, chain: Chain): Rule {
    Rule([From(i)], Jump(chain))
  }

  function Appends(chain: Chain, rules: seq<Rule>): seq<Command> {
    seq(|rules|, k requires 0 <= k < |rules| => Append(chain, rules[k]))
  }

  function Rebuild(chain: Chain, rules: seq<Rule>): seq<Command> {
    [New(chain), Flush(chain)] + Appends(chain, rules)
  }

  /** Check-then-insert. */
  function Hook(parent: Chain, i: string, chain: Chain): seq<Command> {
    [Check(parent, HookRule(i, chain)), Insert(parent, HookRule(i, chain))]
  }

  function Plan(i: string, isolate: bool): seq<Command> {
    Rebuild(Sandbox, ForwardRules(i, isolate)) + Hook(DockerUser, i, Sandbox)
    + Rebuild(SandboxInput, InputRules(i)) + Hook(Input, i, SandboxInput)
  }

  lemma RebuildSnoc(chain: Chain, rules: seq<Rule>, r: Rule)
    ensures Rebuild(chain, rules + [r]) == Rebuild(chain, rules) + [Append(chain, r)]
  {
    assert Appends(chain, rules + [r]) == Appends(chain, rules) + [Append(chain, r)];
  }

  lemma RebuildStarts(chain: Chain, r: Rule)
    ensures Rebuild(chain, [r]) == [New(chain), Flush(chain), Append(chain, r)]
  {
    assert Appends(chain, [r]) == [Append(chain, r)];
  }

  /** A letter, a digit, a dash, a dot or an underscore, by its code. */
  predicate NameCode(n: int) {
    48 <= n <= 57 || 65 <= n <= 90 || 97 <= n <= 122 || n in {45, 46, 95}
  }

  lemma InterfaceCharIs(c: char)
    ensures InterfaceChar(c) <==> NameCode(c as int)
  {
    var s := "_.-";
    assert s[0] == '_' && s[1] == '.' && s[2] == '-';
    assert c in "_.-" <==> c == '_' || c == '.' || c == '-';
    if InterfaceChar(c) {
      assert NameCode(c as int);
    } else {
      assert !NameCode(c as int);
    }
  }

  /** Which names are taken for an interface, by the codes of their characters. */
  lemma ValidInterfaceIs(i: string)
    ensures ValidInterface(i) <==>
              1 <= |Trimmed(i)| <= 15 && forall k :: 0 <= k < |Trimmed(i)| ==> NameCode(Trimmed(i)[k] as int)
  {
    var name := Trimmed(i);
    forall k | 0 <= k < |name|
      ensures InterfaceChar(name[k]) <==> NameCode(name[k] as int)
    {
      InterfaceCharIs(name[k]);
    }
  }

  /** `build_rules`; None stands for its ValueError. */
  method BuildRules(i: string, subnet: Option<string>) returns (plan: Option<seq<Command>>)
    ensures plan.Some? <==> ValidInterface(i)
    ensures plan.Some? <==>
              1 <= |Trimmed(i)| <= 15 && forall k :: 0 <= k < |Trimmed(i)| ==> NameCode(Trimmed(i)[k] as int)
    ensures plan.Some? ==> plan.value == Plan(i, subnet.Some? && subnet.value != "")
  {
    ValidInterfaceIs(i);
    hide ValidInterface;
    if !ValidInterface(i) {
      return None;
    }
    var isolate := subnet.Some? && subnet.value != "";
    var rules := [New(Sandbox), Flush(Sandbox), Append(Sandbox, RETURN_ESTABLISHED)];
    ghost var done := [RETURN_ESTABLISHED];
    RebuildStarts(Sandbox, RETURN_ESTABLISHED);
    hide Rebuild, ForwardRules, InputRules, Hook;
    for k := 0 to |BLOCKED_RANGES|
      invariant done == [RETURN_ESTABLISHED] + RejectRules(i, BLOCKED_RANGES[..k])
      invariant rules == Rebuild(Sandbox, done)
    {
      var r := Rule([From(i), Destination(BLOCKED_RANGES[k])], Reject);
      RebuildSnoc(Sandbox, done, r);
      RejectSnoc(i, BLOCKED_RANGES, k);
      rules, done := rules + [Append(Sandbox, r)], done + [r];
    }
    assert BLOCKED_RANGES[..|BLOCKED_RANGES|] == BLOCKED_RANGES;
    if isolate {
      var r := Rule([From(i), To(i)], Reject);
      RebuildSnoc(Sandbox, done, r);
      rules, done := rules + [Append(Sandbox, r)], done + [r];
    }
    RebuildSnoc(Sandbox, done, RETURN_ALWAYS);
    rules, done := rules + [Append(Sandbox, RETURN_ALWAYS)], done + [RETURN_ALWAYS];
    ForwardRulesAre(i, isolate, done);
    rules := rules + Hook(DockerUser, i, Sandbox);
    InputIsRebuilt(i);
    rules := rules + [New(SandboxInput), Flush(SandboxInput), Append(SandboxInput, RETURN_ESTABLISHED),
                      Append(SandboxInput, Rule([From(i)], Reject)), Append(SandboxInput, RETURN_ALWAYS)];
    plan := Some(rules + Hook(Input, i, SandboxInput));
  }

  lemma RejectSnoc(i: string, ranges: seq<Range>, k: nat)
    requires k < |ranges|
    ensures RejectRules(i, ranges[..k + 1]) ==
            RejectRules(i, ranges[..k]) + [Rule([From(i), Destination(ranges[k])], Reject)]
  {
    assert ranges[..k + 1][..k] == ranges[..k];
  }

  lemma ForwardRulesAre(i: string, isolate: bool, rules: seq<Rule>)
    requires rules == [RETURN_ESTABLISHED] + RejectRules(i, BLOCKED_RANGES) + IsolationRules(i, isolate)
                      + [RETURN_ALWAYS]
    ensures ForwardRules(i, isolate) == rules
  {
  }

  lemma InputIsRebuilt(i: string)
    ensures Rebuild(SandboxInput, InputRules(i)) ==
            [New(SandboxInput), Flush(SandboxInput), Append(SandboxInput, RETURN_ESTABLISHED),
             Append(SandboxInput, Rule([From(i)], Reject)), Append(SandboxInput, RETURN_ALWAYS)]
  {
    var a, b, c := Append(SandboxInput, RETURN_ESTABLISHED), Append(SandboxInput, Rule([From(i)], Reject)),
                   Append(SandboxInput, RETURN_ALWAYS);
    assert Appends(SandboxInput, InputRules(i)) == [a, b, c];
  }

  // ---- applying it ----

  datatype Applied = Applied(chains: Chains, warnings: seq<Command>)

  /** What running a plan does, when the next command is or is not to be skipped. A warning names its command. */
  function RunAll(cs: Chains, plan: seq<Command>, skip: bool): Applied
    decreases |plan|
  {
    if plan == [] then Applied(cs, [])
    else if skip then RunAll(cs, plan[1..], false)
    else
      var c := plan[0];
      var rest := RunAll(Exec(cs, c), plan[1..], c.Check? && Succeeds(cs, c));
      if Succeeds(cs, c) || c.New? || c.Check? then rest else rest.(warnings := [c] + rest.warnings)
  }

  method ApplyRules(host: Host, plan: seq<Command>) returns (warnings: seq<Command>)
    modifies host
    ensures Applied(host.chains, warnings) == RunAll(old(host.chains), plan, false)
  {
    warnings := [];
    var skipNext := false;
    ghost var whole := RunAll(host.chains, plan, false);
    assert plan[0..] == plan;
    for k := 0 to |plan|
      invariant var rest := RunAll(host.chains, plan[k..], skipNext);
                whole == Applied(rest.chains, warnings + rest.warnings)
    {
      assert plan[k..][1..] == plan[k + 1..];
      if skipNext {
        skipNext := false;
        continue;
      }
      var ok := host.Run(plan[k]);
      if plan[k].New? && !ok {
        continue;
      }
      if plan[k].Check? {
        skipNext := ok;
        continue;
      }
      if !ok {
        warnings := warnings + [plan[k]];
      }
    }
  }
}
