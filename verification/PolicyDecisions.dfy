/** The policy engine's decision about a step, and the wizard that writes profiles for it. */
module PolicyDecisions {
  import opened Tasks

  datatype Permission =
    | ReadMemory | WriteMemory | ReadFiles | WriteFiles | Network
    | SendMessage | ExecuteCode | Delete | Financial | SystemConfig

  datatype Risk = Low | Medium | High | Critical

  datatype Reversibility = Reversible | Compensatable | Irreversible

  datatype Decision = Approved | Denied | NeedsHuman

  datatype Step = Step(tool: string, required: set<Permission>, risk: Risk, reversibility: Reversibility)

  function RiskValue(r: Risk): nat {
    match r case Low => 1 case Medium => 2 case High => 3 case Critical => 4
  }

  predicate Riskier(a: Risk, b: Risk) { RiskValue(a) > RiskValue(b) }

  // ---------- rules ----------

  /** `Malformed` is a condition the engine does not know, or one with a value it cannot read. */
  datatype Condition =
    | ProfileIs(name: string)
    | ToolIs(tool: string)
    | AnyPermission(permissions: set<Permission>)
    | RiskAtLeast(risk: Risk)
    | ReversibilityIs(reversibility: Reversibility)
    | Malformed

  /** The constructor refuses rules that approve and rules without conditions. */
  datatype Rule = Rule(name: string, conditions: seq<Condition>, decision: Decision)

  predicate ValidRule(r: Rule) { r.decision != Approved && r.conditions != [] }

  /** Whether a condition holds; None when looking at it raises. */
  function Holds(c: Condition, step: Step, profile: string): Option<bool> {
    match c
    case ProfileIs(name) => Some(profile == name)
    case ToolIs(tool) => Some(step.tool == tool)
    case AnyPermission(permissions) => Some(permissions * step.required != {})
    case RiskAtLeast(risk) => Some(!Riskier(risk, step.risk))
    case ReversibilityIs(reversibility) => Some(step.reversibility == reversibility)
    case Malformed => None
  }

  /** Conditions are looked at in order, up to the first that fails. */
  function AllHold(conditions: seq<Condition>, step: Step, profile: string): Option<bool> {
    if conditions == [] then Some(true)
    else match Holds(conditions[0], step, profile)
      case None => None
      case Some(holds) => if holds then AllHold(conditions[1..], step, profile) else Some(false)
  }

  /** The decision of the first rule that matches, if any does. */
  function ByRules(rules: seq<Rule>, step: Step, profile: string): Option<Option<Decision>> {
    if rules == [] then Some(None)
    else match AllHold(rules[0].conditions, step, profile)
      case None => None
      case Some(matches) => if matches then Some(Some(rules[0].decision)) else ByRules(rules[1..], step, profile)
  }

  // ---------- grants ----------

  datatype Grant = Grant(
    principal: string,
    permissions: set<Permission>,
    tools: seq<string>,
    maxRisk: Option<Risk>,
    denied: set<Permission>,
    expiresAt: Option<real>,
    maxUses: Option<int>,
    uses: nat)

  predicate AppliesTo(g: Grant, principal: string, tool: string, now: real) {
    && g.principal == principal
    && (g.tools == [] || tool in g.tools)
    && (g.expiresAt.Some? ==> now <= g.expiresAt.value)
    && (g.maxUses.Some? ==> g.uses < g.maxUses.value)
  }

  /** The first grant that applies; without a principal there is none. */
  function MatchingGrant(grants: seq<Grant>, principal: string, tool: string, now: real): Option<Grant> {
    if grants == [] || principal == "" then None
    else if AppliesTo(grants[0], principal, tool, now) then Some(grants[0])
    else MatchingGrant(grants[1..], principal, tool, now)
  }

  // ---------- decisions ----------

  datatype Policy = Policy(
    profile: string,
    granted: set<Permission>,
    maxAutoRisk: Risk,
    needsHuman: set<Permission>,
    denied: set<Permission>,
    rules: seq<Rule>,
    grants: seq<Grant>,
    principal: string)

  predicate ValidPolicy(p: Policy) {
    forall r :: r in p.rules ==> ValidRule(r)
  }

  predicate Consequential(step: Step) {
    step.required != {} || !Riskier(Medium, step.risk)
  }

  /** The decision once rules and denials are out of the way. */
  function ByCapability(step: Step, needsHuman: set<Permission>, granted: set<Permission>, maxRisk: Risk): Decision {
    if step.required * needsHuman != {} then NeedsHuman
    else if step.required - granted != {} then NeedsHuman
    else if Riskier(step.risk, maxRisk) then NeedsHuman
    else if Consequential(step) && step.reversibility in {Compensatable, Irreversible} then NeedsHuman
    else Approved
  }

  /** None when a rule's condition raises. */
  function Decide(p: Policy, step: Step, now: real): Option<Decision> {
    match ByRules(p.rules, step, p.profile)
    case None => None
    case Some(Some(decision)) => Some(decision)
    case Some(None) =>
      if step.required * p.denied != {} then Some(Denied)
      else match MatchingGrant(p.grants, p.principal, step.tool, now)
        case Some(g) =>
          if step.required * g.denied != {} then Some(Denied)
          else Some(ByCapability(step, p.needsHuman, g.permissions, if g.maxRisk.Some? then g.maxRisk.value else p.maxAutoRisk))
        case None => Some(ByCapability(step, p.needsHuman, p.granted, p.maxAutoRisk))
  }

  /** What approval means, whatever came first: no rule matches or raises, nothing required is
      denied or reserved for humans, and the grant in force, or the profile, covers the step. */
  predicate Cleared(p: Policy, step: Step, now: real) {
    var g := MatchingGrant(p.grants, p.principal, step.tool, now);
    && ByRules(p.rules, step, p.profile) == Some(None)
    && step.required !! p.denied && step.required !! p.needsHuman
    && (g.Some? ==> step.required !! g.value.denied)
    && step.required <= (if g.Some? then g.value.permissions else p.granted)
    && !Riskier(step.risk, if g.Some? && g.value.maxRisk.Some? then g.value.maxRisk.value else p.maxAutoRisk)
    && (step.reversibility == Reversible || !Consequential(step))
  }

  lemma {:induction false} RulesNeverApprove(rules: seq<Rule>, step: Step, profile: string)
    requires forall r :: r in rules ==> ValidRule(r)
    ensures ByRules(rules, step, profile) != Some(Some(Approved))
  {
    if rules != [] {
      assert ValidRule(rules[0]);
      RulesNeverApprove(rules[1..], step, profile);
    }
  }

  lemma ApprovedIff(p: Policy, step: Step, now: real)
    requires ValidPolicy(p)
    ensures Decide(p, step, now) == Some(Approved) <==> Cleared(p, step, now)
  {
    RulesNeverApprove(p.rules, step, p.profile);
    var g := MatchingGrant(p.grants, p.principal, step.tool, now);
    MeetsIff(step.required, p.denied);
    MeetsIff(step.required, p.needsHuman);
    if g.Some? {
      MeetsIff(step.required, g.value.denied);
    }
    MeetsIff(step.required, if g.Some? then g.value.permissions else p.granted);
  }

  lemma MeetsIff(a: set<Permission>, b: set<Permission>)
    ensures a * b == {} <==> a !! b
    ensures a - b == {} <==> a <= b
  {
    if a !! b {
      assert forall x :: x !in a * b;
    }
    if a * b == {} {
      forall x | x in a
        ensures x !in b
      {
        assert x !in a * b;
      }
    }
    if a - b == {} {
      forall x | x in a
        ensures x in b
      {
        assert x !in a - b;
      }
    }
  }

  // ---------- approval is downward closed ----------

  predicate AsksReversibility(conditions: seq<Condition>) {
    exists c :: c in conditions && c.ReversibilityIs?
  }

  /** `b` asks for at least what `a` asks for. */
  predicate AsksMore(a: Step, b: Step) {
    a.tool == b.tool && a.required <= b.required && !Riskier(a.risk, b.risk)
  }

  /** `b` is as easy to undo as `a`, or harder where no rule looks. */
  predicate HarderToUndo(a: Step, b: Step, rules: seq<Rule>) {
    a.reversibility == b.reversibility
    || (b.reversibility != Reversible && forall r :: r in rules ==> !AsksReversibility(r.conditions))
  }

  /** `q` is at least as strict as `p`, under the same grants. */
  ghost predicate Stricter(p: Policy, q: Policy) {
    && p.profile == q.profile && p.principal == q.principal && p.grants == q.grants
    && q.granted <= p.granted && !Riskier(q.maxAutoRisk, p.maxAutoRisk)
    && p.needsHuman <= q.needsHuman && p.denied <= q.denied
    && (forall r :: r in p.rules ==> r in q.rules)
  }

  lemma {:induction false} FailsForLess(conditions: seq<Condition>, a: Step, b: Step, profile: string)
    requires AsksMore(a, b) && AllHold(conditions, b, profile) == Some(false)
    requires a.reversibility == b.reversibility || !AsksReversibility(conditions)
    ensures AllHold(conditions, a, profile) == Some(false)
  {
    assert conditions[0] in conditions;
    assert forall c :: c in conditions[1..] ==> c in conditions;
    if Holds(conditions[0], b, profile) == Some(true) {
      FailsForLess(conditions[1..], a, b, profile);
    }
    if conditions[0].AnyPermission? && conditions[0].permissions * a.required != {} {
      var x :| x in conditions[0].permissions * a.required;
      assert x in conditions[0].permissions * b.required;
    }
  }

  lemma {:induction false} NoRuleMatchesIff(rules: seq<Rule>, step: Step, profile: string)
    ensures ByRules(rules, step, profile) == Some(None)
      <==> forall r :: r in rules ==> AllHold(r.conditions, step, profile) == Some(false)
  {
    if rules != [] {
      NoRuleMatchesIff(rules[1..], step, profile);
      assert rules == [rules[0]] + rules[1..];
    }
  }

  /** Asking for more of a stricter policy never turns a step that was not approved into one
      that is: not by what the rules say, and not by a rule that raises. */
  lemma ApprovalIsDownwardClosed(p: Policy, q: Policy, a: Step, b: Step, now: real)
    requires ValidPolicy(q) && ValidPolicy(p) && Stricter(p, q)
    requires AsksMore(a, b) && HarderToUndo(a, b, q.rules)
    requires Decide(q, b, now) == Some(Approved)
    ensures Decide(p, a, now) == Some(Approved)
  {
    ApprovedIff(q, b, now);
    ApprovedIff(p, a, now);
    NoRuleMatchesIff(q.rules, b, q.profile);
    NoRuleMatchesIff(p.rules, a, p.profile);
    forall r | r in p.rules
      ensures AllHold(r.conditions, a, p.profile) == Some(false)
    {
      FailsForLess(r.conditions, a, b, p.profile);
    }
  }

  // ---------- where the closure ends ----------

  /** The step is approved although it would not be if it were reversible. */
  ghost predicate EscapesRule(p: Policy, step: Step, now: real) {
    Decide(p, step, now) == Some(Approved) && Decide(p, step.(reversibility := Reversible), now) != Some(Approved)
  }

  /** The step is approved once the policy has no grants, and not before. */
  ghost predicate GrantRestricts(p: Policy, step: Step, now: real) {
    Decide(p.(grants := []), step, now) == Some(Approved) && Decide(p, step, now) != Some(Approved)
  }

  /** A condition that does not ask for reversibility says the same of the reversible twin. */
  lemma {:induction false} BlindConditions(conditions: seq<Condition>, step: Step, profile: string)
    requires !AsksReversibility(conditions)
    ensures AllHold(conditions, step.(reversibility := Reversible), profile) == AllHold(conditions, step, profile)
  {
    if conditions != [] {
      assert conditions[0] in conditions && forall c :: c in conditions[1..] ==> c in conditions;
      BlindConditions(conditions[1..], step, profile);
    }
  }

  /** A step that is hard to undo is approved where its reversible twin is not iff it is cleared,
      which takes that it is inconsequential, and some rule that asks for reversibility matches
      the twin, or raises on it. */
  lemma EscapesRuleIff(p: Policy, step: Step, now: real)
    requires ValidPolicy(p) && step.reversibility != Reversible
    ensures EscapesRule(p, step, now)
      <==> Cleared(p, step, now)
           && exists r :: r in p.rules && AsksReversibility(r.conditions)
                && AllHold(r.conditions, step.(reversibility := Reversible), p.profile) != Some(false)
    ensures EscapesRule(p, step, now) ==> !Consequential(step)
  {
    var twin := step.(reversibility := Reversible);
    ApprovedIff(p, step, now);
    ApprovedIff(p, twin, now);
    NoRuleMatchesIff(p.rules, step, p.profile);
    NoRuleMatchesIff(p.rules, twin, p.profile);
    forall r | r in p.rules && !AsksReversibility(r.conditions)
      ensures AllHold(r.conditions, twin, p.profile) == AllHold(r.conditions, step, p.profile)
    {
      BlindConditions(r.conditions, step, p.profile);
    }
    hide ByRules, MatchingGrant, AllHold, Decide, AsksReversibility;
  }

  /** The grant stops a step that the profile alone would approve: it denies something the step
      requires, does not cover it all, or caps the risk below the step's. */
  predicate Withholds(p: Policy, g: Grant, step: Step) {
    || !(step.required !! g.denied)
    || !(step.required <= g.permissions)
    || Riskier(step.risk, if g.maxRisk.Some? then g.maxRisk.value else p.maxAutoRisk)
  }

  /** Taking the grants away turns a step into an approved one iff a grant is in force that
      withholds it and the profile without grants clears it. */
  lemma GrantRestrictsIff(p: Policy, step: Step, now: real)
    requires ValidPolicy(p)
    ensures var g := MatchingGrant(p.grants, p.principal, step.tool, now);
      GrantRestricts(p, step, now) <==> g.Some? && Withholds(p, g.value, step) && Cleared(p.(grants := []), step, now)
  {
    ApprovedIff(p, step, now);
    ApprovedIff(p.(grants := []), step, now);
  }

  /** Both happen. */
  lemma BothHappen() returns (p: Policy, q: Policy, step: Step, read: Step)
    ensures ValidPolicy(p) && EscapesRule(p, step, 0.0) && ValidPolicy(q) && GrantRestricts(q, read, 0.0)
  {
    step := Step("echo", {}, Low, Irreversible);
    var rule := Rule("slow down", [ReversibilityIs(Reversible)], NeedsHuman);
    p := Policy("custom", {}, Low, {}, {}, [rule], [], "");
    assert AllHold(rule.conditions[1..], step.(reversibility := Reversible), "custom") == Some(true);
    assert ByRules(p.rules[1..], step, "custom") == Some(None);
    assert Decide(p, step, 0.0) == Some(Approved);
    read := Step("read", {ReadFiles}, Low, Reversible);
    var g := Grant("ada", {}, [], None, {ReadFiles}, None, None, 0);
    q := Policy("custom", {ReadFiles}, Low, {}, {}, [], [g], "ada");
    assert ReadFiles in read.required * g.denied;
    assert MatchingGrant(q.grants, "ada", "read", 0.0) == Some(g);
    assert Decide(q, read, 0.0) == Some(Denied);
    assert Decide(q.(grants := []), read, 0.0) == Some(Approved);
  }

  // ---------- the wizard ----------

  function PermissionOf(name: string): Option<Permission> {
    if name == "read_memory" then Some(ReadMemory)
    else if name == "write_memory" then Some(WriteMemory)
    else if name == "read_files" then Some(ReadFiles)
    else if name == "write_files" then Some(WriteFiles)
    else if name == "network" then Some(Network)
    else if name == "send_message" then Some(SendMessage)
    else if name == "execute_code" then Some(ExecuteCode)
    else if name == "delete" then Some(Delete)
    else if name == "financial" then Some(Financial)
    else if name == "system_config" then Some(SystemConfig)
    else None
  }

  function RiskOf(name: string): Option<Risk> {
    if name == "low" then Some(Low)
    else if name == "medium" then Some(Medium)
    else if name == "high" then Some(High)
    else if name == "critical" then Some(Critical)
    else None
  }

  const ALL: set<Permission> :=
    {ReadMemory, WriteMemory, ReadFiles, WriteFiles, Network, SendMessage, ExecuteCode, Delete, Financial, SystemConfig}

  const CONSEQUENTIAL: set<Permission> :=
    {WriteMemory, WriteFiles, Network, SendMessage, ExecuteCode, Delete, Financial, SystemConfig}

  /** The permissions a list of names stands for; None when one of them is unknown. */
  function Granted(names: seq<string>): Option<set<Permission>> {
    if names == [] then Some({})
    else match (PermissionOf(names[0]), Granted(names[1..]))
      case (Some(first), Some(rest)) => Some({first} + rest)
      case _ => None
  }

  /** The policy of a generated profile; None where the wizard refuses its input. `stripped`
      is the profile's name without blanks around it. */
  function WizardPolicy(stripped: string, names: seq<string>, maxAutoRisk: string, principal: string): Option<Policy> {
    match (Granted(names), RiskOf(maxAutoRisk))
    case (Some(granted), Some(risk)) =>
      if stripped == "" then None
      else Some(Policy(stripped, granted, risk, granted * CONSEQUENTIAL, ALL - granted, [], [], principal))
    case _ => None
  }

  /** What a generated profile does with any step: it denies whatever needs a permission that
      was not granted, and approves by itself only reading within the risk limit. */
  lemma WizardIsConservative(stripped: string, names: seq<string>, maxAutoRisk: string, principal: string, step: Step, now: real)
    requires WizardPolicy(stripped, names, maxAutoRisk, principal).Some?
    ensures var p := WizardPolicy(stripped, names, maxAutoRisk, principal).value;
      var quiet := step.required <= {ReadMemory, ReadFiles} && !Riskier(step.risk, p.maxAutoRisk)
                   && (step.reversibility == Reversible || (step.required == {} && step.risk == Low));
      Decide(p, step, now) == Some(if !(step.required <= p.granted) then Denied else if quiet then Approved else NeedsHuman)
  {
    var p := WizardPolicy(stripped, names, maxAutoRisk, principal).value;
    EveryPermission(step.required);
    if step.required <= p.granted {
      assert step.required * p.denied == {};
      if x :| x in step.required && x !in {ReadMemory, ReadFiles} {
        assert x in step.required * p.needsHuman;
      } else {
        assert step.required * p.needsHuman == {};
      }
    } else {
      var x :| x in step.required && x !in p.granted;
      assert x in step.required * p.denied;
    }
  }

  lemma EveryPermission(s: set<Permission>)
    ensures s <= ALL && forall x :: x in CONSEQUENTIAL <==> x !in {ReadMemory, ReadFiles}
  {
    forall x: Permission
      ensures x in ALL && (x in CONSEQUENTIAL <==> x !in {ReadMemory, ReadFiles})
    {
      match x
      case ReadMemory => case WriteMemory => case ReadFiles => case WriteFiles => case Network =>
      case SendMessage => case ExecuteCode => case Delete => case Financial => case SystemConfig =>
    }
  }
}
