/** What the policy engine decides, written out in terms of the step, the rules and the grants. */
module DecisionsInFull {
  import opened Tasks
  import opened PolicyDecisions

  // ---------- the order of risks ----------

  lemma RiskOrder(a: Risk, b: Risk)
    ensures Riskier(a, b) <==>
      (a == Critical && b != Critical) || (a == High && (b == Low || b == Medium)) || (a == Medium && b == Low)
  {
  }

  // ---------- rules ----------

  /** What each condition asks of the step. */
  predicate Met(c: Condition, step: Step, profile: string) {
    && (c.ProfileIs? ==> profile == c.name)
    && (c.ToolIs? ==> step.tool == c.tool)
    && (c.AnyPermission? ==> exists x :: x in c.permissions && x in step.required)
    && (c.RiskAtLeast? ==> match c.risk
                           case Low => true
                           case Medium => step.risk != Low
                           case High => step.risk == High || step.risk == Critical
                           case Critical => step.risk == Critical)
    && (c.ReversibilityIs? ==> step.reversibility == c.reversibility)
  }

  lemma HoldsIff(c: Condition, step: Step, profile: string)
    ensures Holds(c, step, profile) == if c == Malformed then None else Some(Met(c, step, profile))
  {
    if c.AnyPermission? && c.permissions * step.required != {} {
      var x :| x in c.permissions * step.required;
    }
    if c.AnyPermission? && Met(c, step, profile) {
      var x :| x in c.permissions && x in step.required;
      assert x in c.permissions * step.required;
    }
  }

  /** A rule matches when the step meets each of its conditions; it does not match when the first
      condition that stands in the way is one that the step does not meet, and looking at it raises
      when that condition is malformed. */
  lemma {:induction false} RuleMatches(conditions: seq<Condition>, step: Step, profile: string) returns (i: nat)
    ensures match AllHold(conditions, step, profile)
      case Some(true) => forall j :: 0 <= j < |conditions| ==> conditions[j] != Malformed && Met(conditions[j], step, profile)
      case Some(false) => i < |conditions| && conditions[i] != Malformed && !Met(conditions[i], step, profile)
      case None => i < |conditions| && conditions[i] == Malformed
    ensures AllHold(conditions, step, profile) != Some(true) ==>
      forall j :: 0 <= j < i ==> conditions[j] != Malformed && Met(conditions[j], step, profile)
  {
    i := 0;
    if conditions != [] {
      HoldsIff(conditions[0], step, profile);
      hide Met, Holds;
      if Holds(conditions[0], step, profile) == Some(true) {
        var k := RuleMatches(conditions[1..], step, profile);
        i := k + 1;
        assert forall j :: 0 < j < |conditions| ==> conditions[j] == conditions[1..][j - 1];
      }
    }
  }

  /** The first rule that matches decides, unless one before it raises. */
  lemma {:induction false} FirstMatchDecides(rules: seq<Rule>, step: Step, profile: string) returns (i: nat)
    ensures match ByRules(rules, step, profile)
      case None => i < |rules| && AllHold(rules[i].conditions, step, profile) == None
      case Some(None) => forall j :: 0 <= j < |rules| ==> AllHold(rules[j].conditions, step, profile) == Some(false)
      case Some(Some(d)) => i < |rules| && AllHold(rules[i].conditions, step, profile) == Some(true) && d == rules[i].decision
    ensures ByRules(rules, step, profile) != Some(None) ==>
      forall j :: 0 <= j < i ==> AllHold(rules[j].conditions, step, profile) == Some(false)
  {
    i := 0;
    if rules != [] && AllHold(rules[0].conditions, step, profile) == Some(false) {
      hide AllHold;
      var k := FirstMatchDecides(rules[1..], step, profile);
      i := k + 1;
      assert forall j :: 0 < j < |rules| ==> rules[j] == rules[1..][j - 1];
    }
  }

  // ---------- grants ----------

  /** The grant in force is the first in the list that is the principal's, covers the tool, has not
      expired and is not used up; there is none without a principal, or where no grant is such. */
  lemma {:induction false} GrantInForce(grants: seq<Grant>, principal: string, tool: string, now: real) returns (i: nat)
    ensures match MatchingGrant(grants, principal, tool, now)
      case None =>
        principal == ""
        || forall j :: 0 <= j < |grants| ==>
             grants[j].principal != principal || (grants[j].tools != [] && tool !in grants[j].tools)
             || (grants[j].expiresAt != None && now > grants[j].expiresAt.value)
             || (grants[j].maxUses != None && grants[j].uses >= grants[j].maxUses.value)
      case Some(g) =>
        && principal != "" && i < |grants| && grants[i] == g
        && g.principal == principal && (g.tools == [] || tool in g.tools)
        && (g.expiresAt == None || now <= g.expiresAt.value) && (g.maxUses == None || g.uses < g.maxUses.value)
        && forall j :: 0 <= j < i ==>
             grants[j].principal != principal || (grants[j].tools != [] && tool !in grants[j].tools)
             || (grants[j].expiresAt != None && now > grants[j].expiresAt.value)
             || (grants[j].maxUses != None && grants[j].uses >= grants[j].maxUses.value)
  {
    i := 0;
    if grants != [] && principal != "" && !AppliesTo(grants[0], principal, tool, now) {
      var k := GrantInForce(grants[1..], principal, tool, now);
      i := k + 1;
      assert forall j :: 0 < j < |grants| ==> grants[j] == grants[1..][j - 1];
    }
  }

  // ---------- decisions ----------

  /** The capabilities that count: those of the grant in force at index `i`, or the profile's. */
  lemma {:induction false} DecideMeans(p: Policy, step: Step, now: real) returns (i: nat, grant: Option<Grant>)
    requires forall r :: r in p.rules ==> AllHold(r.conditions, step, p.profile) == Some(false)
    ensures grant.Some? ==>
      && p.principal != "" && i < |p.grants| && p.grants[i] == grant.value && grant.value.principal == p.principal
      && (grant.value.tools == [] || step.tool in grant.value.tools)
      && (grant.value.expiresAt == None || now <= grant.value.expiresAt.value)
      && (grant.value.maxUses == None || grant.value.uses < grant.value.maxUses.value)
    ensures grant.None? ==>
      p.principal == "" || forall g :: g in p.grants ==>
        g.principal != p.principal || (g.tools != [] && step.tool !in g.tools)
        || (g.expiresAt != None && now > g.expiresAt.value) || (g.maxUses != None && g.uses >= g.maxUses.value)
    ensures var permissions := if grant.Some? then grant.value.permissions else p.granted;
      var cap := if grant.Some? && grant.value.maxRisk.Some? then grant.value.maxRisk.value else p.maxAutoRisk;
      Decide(p, step, now) ==
        if exists x :: x in step.required && (x in p.denied || (grant.Some? && x in grant.value.denied)) then Some(Denied)
        else if exists x :: x in step.required && (x in p.needsHuman || x !in permissions) then Some(NeedsHuman)
        else if (step.risk == Critical && cap != Critical) || (step.risk == High && (cap == Low || cap == Medium))
                || (step.risk == Medium && cap == Low) then Some(NeedsHuman)
        else if (step.required != {} || step.risk != Low) && step.reversibility != Reversible then Some(NeedsHuman)
        else Some(Approved)
  {
    grant := MatchingGrant(p.grants, p.principal, step.tool, now);
    i := GrantInForce(p.grants, p.principal, step.tool, now);
    var r := FirstMatchDecides(p.rules, step, p.profile);
    assert ByRules(p.rules, step, p.profile) == Some(None) by {
      assert r < |p.rules| ==> p.rules[r] in p.rules;
    }
    var permissions := if grant.Some? then grant.value.permissions else p.granted;
    var cap := if grant.Some? && grant.value.maxRisk.Some? then grant.value.maxRisk.value else p.maxAutoRisk;
    Meeting(step.required, p.denied);
    Meeting(step.required, p.needsHuman);
    Lacking(step.required, permissions);
    if grant.Some? {
      Meeting(step.required, grant.value.denied);
    }
    RiskOrder(step.risk, cap);
    RiskOrder(Medium, step.risk);
    hide MatchingGrant, ByRules, AllHold, Riskier;
  }

  lemma Meeting(a: set<Permission>, b: set<Permission>)
    ensures a * b != {} <==> exists x :: x in a && x in b
  {
    if x :| x in a && x in b {
      assert x in a * b;
    }
    if a * b != {} {
      var x :| x in a * b;
    }
  }

  lemma Lacking(a: set<Permission>, b: set<Permission>)
    ensures a - b != {} <==> exists x :: x in a && x !in b
  {
    if x :| x in a && x !in b {
      assert x in a - b;
    }
    if a - b != {} {
      var x :| x in a - b;
    }
  }
}
