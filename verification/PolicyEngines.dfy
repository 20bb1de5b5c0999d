/** The policy engine and its grants as objects: decisions are loops over rules and grants, and
    a grant counts its uses. */
module PolicyEngines {
  import opened Tasks
  import P = PolicyDecisions

  class CapabilityGrant {
    const principal: string
    const permissions: set<P.Permission>
    const tools: seq<string>
    const maxRisk: Option<P.Risk>
    const denied: set<P.Permission>
    const expiresAt: Option<real>
    const maxUses: Option<int>
    var uses: nat

    function Value(): P.Grant
      reads this
    {
      P.Grant(principal, permissions, tools, maxRisk, denied, expiresAt, maxUses, uses)
    }

    constructor (g: P.Grant)
      ensures Value() == g.(uses := 0)
    {
      principal, permissions, tools, maxRisk := g.principal, g.permissions, g.tools, g.maxRisk;
      denied, expiresAt, maxUses, uses := g.denied, g.expiresAt, g.maxUses, 0;
    }

    method RecordUse()
      modifies this`uses
      ensures Value() == old(Value()).(uses := old(uses) + 1)
    {
      uses := uses + 1;
    }
  }

  class PolicyEngine {
    /** Everything but the grants. */
    const policy: P.Policy
    const grants: seq<CapabilityGrant>

    ghost function Value(): P.Policy
      reads grants
    {
      policy.(grants := Values(grants))
    }

    static ghost function Values(grants: seq<CapabilityGrant>): seq<P.Grant>
      reads grants
    {
      if grants == [] then [] else [grants[0].Value()] + Values(grants[1..])
    }

    /** No grant was used more often than it allows. */
    ghost predicate WithinLimits()
      reads grants
    {
      forall g :: g in grants && g.maxUses.Some? ==> g.uses <= g.maxUses.value || g.uses == 0
    }

    constructor (policy: P.Policy, grants: seq<CapabilityGrant>)
      ensures this.policy == policy && this.grants == grants
    {
      this.policy := policy;
      this.grants := grants;
    }

    /** None when a condition raises. */
    method Matches(rule: P.Rule, step: P.Step) returns (matches: Option<bool>)
      ensures matches == P.AllHold(rule.conditions, step, policy.profile)
    {
      for i := 0 to |rule.conditions|
        invariant P.AllHold(rule.conditions, step, policy.profile) == P.AllHold(rule.conditions[i..], step, policy.profile)
      {
        match P.Holds(rule.conditions[i], step, policy.profile)
        case None => return None;
        case Some(holds) =>
          if !holds {
            return Some(false);
          }
      }
      return Some(true);
    }

    method DecideByRules(step: P.Step) returns (decision: Option<Option<P.Decision>>)
      ensures decision == P.ByRules(policy.rules, step, policy.profile)
    {
      for i := 0 to |policy.rules|
        invariant P.ByRules(policy.rules, step, policy.profile) == P.ByRules(policy.rules[i..], step, policy.profile)
      {
        var matches := Matches(policy.rules[i], step);
        match matches
        case None => return None;
        case Some(yes) =>
          if yes {
            return Some(Some(policy.rules[i].decision));
          }
      }
      return Some(None);
    }

    method MatchingGrant(tool: string, now: real) returns (grant: CapabilityGrant?)
      ensures grant != null ==> grant in grants
      ensures P.MatchingGrant(Value().grants, policy.principal, tool, now) == if grant == null then None else Some(grant.Value())
    {
      if policy.principal == "" {
        return null;
      }
      for i := 0 to |grants|
        invariant P.MatchingGrant(Values(grants), policy.principal, tool, now)
               == P.MatchingGrant(Values(grants[i..]), policy.principal, tool, now)
      {
        assert grants[i..][0] == grants[i] && grants[i..][1..] == grants[i + 1..];
        assert Values(grants[i..])[1..] == Values(grants[i + 1..]);
        if P.AppliesTo(grants[i].Value(), policy.principal, tool, now) {
          return grants[i];
        }
      }
      return null;
    }

    /** None when a rule's condition raises. */
    method Decide(step: P.Step, now: real) returns (decision: Option<P.Decision>)
      ensures decision == P.Decide(Value(), step, now)
    {
      var configured := DecideByRules(step);
      match configured
      case None => return None;
      case Some(Some(d)) => return Some(d);
      case Some(None) =>
        if step.required * policy.denied != {} {
          return Some(P.Denied);
        }
        var grant := MatchingGrant(step.tool, now);
        if grant != null {
          if step.required * grant.denied != {} {
            return Some(P.Denied);
          }
          var maxRisk := if grant.maxRisk.Some? then grant.maxRisk.value else policy.maxAutoRisk;
          return Some(P.ByCapability(step, policy.needsHuman, grant.permissions, maxRisk));
        }
        return Some(P.ByCapability(step, policy.needsHuman, policy.granted, policy.maxAutoRisk));
    }

    /** A verified step is charged to the grant that applies then, and to no other; so no limit
        is ever passed. */
    method RecordGrantUse(tool: string, now: real) returns (grant: CapabilityGrant?)
      requires WithinLimits()
      modifies grants
      ensures WithinLimits()
      ensures grant != null ==> grant in grants && grant.uses == old(grant.uses) + 1
      ensures P.MatchingGrant(old(Value()).grants, policy.principal, tool, now)
           == if grant == null then None else Some(old(grant.Value()))
      ensures forall g :: g in grants && g != grant ==> g.uses == old(g.uses)
    {
      grant := MatchingGrant(tool, now);
      if grant != null {
        InForce(Values(grants), policy.principal, tool, now);
        grant.RecordUse();
      }
    }
  }

  lemma {:induction false} InForce(grants: seq<P.Grant>, principal: string, tool: string, now: real)
    ensures var g := P.MatchingGrant(grants, principal, tool, now);
      g.Some? ==> g.value in grants && P.AppliesTo(g.value, principal, tool, now)
  {
    if grants != [] && principal != "" && !P.AppliesTo(grants[0], principal, tool, now) {
      InForce(grants[1..], principal, tool, now);
    }
  }
}
