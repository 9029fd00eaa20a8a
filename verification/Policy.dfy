/** Risk tiers of tools and proposals (src/masova_agent/runtime/policy.py and models.py). */
module Policy {
  import opened ProposalStore

  datatype RiskTier = READ | COMPUTE | PROPOSE | EXECUTE

  const MAX_PROPOSALS := 50

  /** A registry of known tools; a tool it does not name has no tier. */
  type Registry = map<string, RiskTier>

  predicate IsAllowed(registry: Registry, tool: string, allowed: set<string>) {
    tool in allowed && tool in registry && registry[tool] != EXECUTE
  }

  ghost function FilterAllowlist(registry: Registry, tools: seq<string>): seq<string> {
    if tools == [] then []
    else
      var last := tools[|tools| - 1];
      FilterAllowlist(registry, tools[..|tools| - 1]) + if last in registry && registry[last] != EXECUTE then [last] else []
  }

  method FilterTools(registry: Registry, tools: seq<string>) returns (cleaned: seq<string>)
    ensures cleaned == FilterAllowlist(registry, tools)
  {
    cleaned := [];
    for i := 0 to |tools|
      invariant cleaned == FilterAllowlist(registry, tools[..i])
    {
      assert tools[..i + 1][..i] == tools[..i];
      if tools[i] in registry && registry[tools[i]] != EXECUTE {
        cleaned := cleaned + [tools[i]];
      }
    }
    assert tools[..|tools|] == tools;
  }

  /** A tool passes the filter exactly if it could be called under the unfiltered list. */
  lemma {:induction false} FilterKeepsCallable(registry: Registry, tools: seq<string>, tool: string)
    ensures tool in FilterAllowlist(registry, tools) <==> IsAllowed(registry, tool, set t | t in tools)
  {
    if tools != [] {
      FilterKeepsCallable(registry, tools[..|tools| - 1], tool);
      assert tools == tools[..|tools| - 1] + [tools[|tools| - 1]];
    }
  }

  /** An agent's draft: the card to be, with what the policy looks at. */
  datatype Proposal = Proposal(card: Card, risk: RiskTier, requiresApproval: bool)

  function Tamed(p: Proposal): Proposal {
    p.(risk := PROPOSE, requiresApproval := true)
  }

  /** The first proposals, without those that would execute, all needing approval. */
  ghost function Validated(ps: seq<Proposal>): seq<Proposal> {
    if ps == [] then []
    else
      var n := |ps| - 1;
      Validated(ps[..n]) + if n < MAX_PROPOSALS && ps[n].risk != EXECUTE then [Tamed(ps[n])] else []
  }

  method ValidateProposals(ps: seq<Proposal>) returns (out: seq<Proposal>)
    ensures out == Validated(ps)
  {
    out := [];
    var n := if |ps| < MAX_PROPOSALS then |ps| else MAX_PROPOSALS;
    for i := 0 to n
      invariant out == Validated(ps[..i])
    {
      assert ps[..i + 1][..i] == ps[..i];
      if ps[i].risk != EXECUTE {
        out := out + [ps[i].(risk := PROPOSE, requiresApproval := true)];
      }
    }
    BeyondTheCap(ps, n);
  }

  lemma {:induction false} BeyondTheCap(ps: seq<Proposal>, n: nat)
    requires n <= |ps| && (n == |ps| || n >= MAX_PROPOSALS)
    ensures Validated(ps) == Validated(ps[..n])
  {
    if n < |ps| {
      BeyondTheCap(ps[..|ps| - 1], n);
      assert ps[..|ps| - 1][..n] == ps[..n];
    } else {
      assert ps[..n] == ps;
    }
  }

  /** At most fifty proposals pass; each needs approval, proposes only, and was not marked
      for execution when it came in. */
  lemma {:induction false} ValidatedAreSafe(ps: seq<Proposal>)
    ensures |Validated(ps)| <= MAX_PROPOSALS && |Validated(ps)| <= |ps|
    ensures forall p :: p in Validated(ps) ==>
              p.requiresApproval && p.risk == PROPOSE && exists q :: q in ps && q.risk != EXECUTE && q.card == p.card
  {
    if ps != [] {
      var n := |ps| - 1;
      ValidatedAreSafe(ps[..n]);
      if n >= MAX_PROPOSALS {
        BeyondTheCap(ps, MAX_PROPOSALS);
        ValidatedAreSafe(ps[..MAX_PROPOSALS]);
      }
      forall p | p in Validated(ps)
        ensures p.requiresApproval && p.risk == PROPOSE && exists q :: q in ps && q.risk != EXECUTE && q.card == p.card
      {
        if p in Validated(ps[..n]) {
          var q :| q in ps[..n] && q.risk != EXECUTE && q.card == p.card;
          assert q in ps;
        } else {
          assert ps[n] in ps && p == Tamed(ps[n]);
        }
      }
    }
  }
}
