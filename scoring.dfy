/**
 * The scoring heuristic of variant selection, written as a rule table: per
 * agent two else-if chains of rules; the first rule of a chain that fires
 * awards that chain's bonus, and at most one rule per chain does.
 */
module Scoring {
  import opened Wrappers
  import opened Text
  import opened Catalogue

  /** Selection criteria: criterion name to chosen value; absent names are unset. */
  type Criteria = map<string, string>

  /** `criteria[name] === value`: an unset criterion equals no value. */
  predicate IsSet(criteria: Criteria, name: string, value: string)
  {
    name in criteria && criteria[name] == value
  }

  /** If criterion `criterion` is `value` and the variant id includes `tag`, award the chain's bonus. */
  datatype Rule = Rule(criterion: string, value: string, tag: string)

  /** A chain awarding `PrimaryBonus` and a chain awarding `SecondaryBonus`. */
  datatype AgentRules = AgentRules(primary: seq<Rule>, secondary: seq<Rule>)

  const PriorityWeight: int := 10
  const PrimaryBonus: int := 20
  const SecondaryBonus: int := 15

  /** The per-agent rule table; agents without a scorer have no entry. */
  function ScoringTable(agentKey: string): (t: Option<AgentRules>)
    ensures t.Some? <==> agentKey in RegisteredAgents
  {
    if agentKey == FraudDetection then
      Some(AgentRules(
        [Rule("response_time_requirement", "fast", "v2"),
         Rule("response_time_requirement", "detailed", "v3"),
         Rule("response_time_requirement", "standard", "v1")],
        [Rule("complexity_level", "simple", "v2"),
         Rule("complexity_level", "complex", "v3"),
         Rule("complexity_level", "moderate", "v1")]))
    else if agentKey == ClaimAssistant then
      Some(AgentRules(
        [Rule("complexity_of_rejection", "simple", "v2"),
         Rule("complexity_of_rejection", "complex", "v3"),
         Rule("complexity_of_rejection", "moderate", "v1")],
        [Rule("legal_involvement", "extensive", "v3"),
         Rule("legal_involvement", "none", "v2"),
         Rule("legal_involvement", "basic", "v1")]))
    else if agentKey == ProductRecommendation then
      Some(AgentRules(
        [Rule("budget_constraints", "low", "v2"),
         Rule("budget_constraints", "high", "v3"),
         Rule("budget_constraints", "medium", "v1")],
        [Rule("coverage_complexity", "basic", "v2"),
         Rule("coverage_complexity", "comprehensive", "v3"),
         Rule("coverage_complexity", "standard", "v1")]))
    else if agentKey == ClauseSimplifier then
      Some(AgentRules(
        [Rule("complexity_of_language", "simple", "v2"),
         Rule("complexity_of_language", "complex", "v3"),
         Rule("complexity_of_language", "moderate", "v1")],
        [Rule("legal_importance", "high", "v3"),
         Rule("legal_importance", "low", "v2"),
         Rule("legal_importance", "medium", "v1")]))
    else None
  }

  /** The rule's condition holds for a variant id under the criteria. */
  predicate Fires(r: Rule, id: string, criteria: Criteria)
  {
    IsSet(criteria, r.criterion, r.value) && Contains(id, r.tag)
  }

  /** An else-if chain: the bonus if some rule fires, checked in order, else 0. */
  function ChainBonus(chain: seq<Rule>, id: string, criteria: Criteria, bonus: int): int
    decreases |chain|
  {
    if chain == [] then 0
    else if Fires(chain[0], id, criteria) then bonus
    else ChainBonus(chain[1..], id, criteria, bonus)
  }

  /** A chain awards its bonus exactly when one of its rules fires, and nothing otherwise. */
  lemma {:induction false} ChainBonusAward(chain: seq<Rule>, id: string, criteria: Criteria, bonus: int)
    ensures ChainBonus(chain, id, criteria, bonus) == bonus || ChainBonus(chain, id, criteria, bonus) == 0
    ensures (exists i :: 0 <= i < |chain| && Fires(chain[i], id, criteria))
        ==> ChainBonus(chain, id, criteria, bonus) == bonus
    ensures (forall i :: 0 <= i < |chain| ==> !Fires(chain[i], id, criteria))
        ==> ChainBonus(chain, id, criteria, bonus) == 0
    decreases |chain|
  {
    if chain != [] && !Fires(chain[0], id, criteria) {
      ChainBonusAward(chain[1..], id, criteria, bonus);
      forall i | 0 < i < |chain| ensures chain[i] == chain[1..][i - 1] { }
    }
  }

  /**
   * `calculatePromptScore`: ten points per priority unit plus the two chain
   * bonuses of the agent's scorer, or the bare priority for an agent with no
   * scorer.
   */
  function Score(agentKey: string, p: PromptConfig, criteria: Criteria): int
  {
    match ScoringTable(agentKey)
    case Some(rules) =>
      PriorityWeight * p.priority
      + ChainBonus(rules.primary, p.id, criteria, PrimaryBonus)
      + ChainBonus(rules.secondary, p.id, criteria, SecondaryBonus)
    case None => p.priority
  }

  /** Some rule of the chain fires for the variant. */
  predicate AnyFires(chain: seq<Rule>, id: string, criteria: Criteria)
  {
    exists i :: 0 <= i < |chain| && Fires(chain[i], id, criteria)
  }

  /**
   * For a registered agent the score is `10 * priority + b1 + b2` with
   * `b1` in {0, 20} and `b2` in {0, 15}; `b1` is 20 exactly when a rule of
   * the first chain fires and `b2` is 15 exactly when one of the second does.
   */
  lemma ScoreBreakdown(agentKey: string, p: PromptConfig, criteria: Criteria)
    requires agentKey in RegisteredAgents
    ensures var rules := ScoringTable(agentKey).value;
      var extra := Score(agentKey, p, criteria) - 10 * p.priority;
      && extra in {0, 15, 20, 35}
      && (extra >= 20 <==> AnyFires(rules.primary, p.id, criteria))
      && (extra == 15 || extra == 35 <==> AnyFires(rules.secondary, p.id, criteria))
  {
    var rules := ScoringTable(agentKey).value;
    ChainBonusAward(rules.primary, p.id, criteria, PrimaryBonus);
    ChainBonusAward(rules.secondary, p.id, criteria, SecondaryBonus);
  }

  /** A bonus can only be earned when some criterion is set. */
  lemma BonusNeedsCriteria(agentKey: string, p: PromptConfig, criteria: Criteria)
    requires agentKey in RegisteredAgents
    requires Score(agentKey, p, criteria) != 10 * p.priority
    ensures |criteria| > 0
  {
    var rules := ScoringTable(agentKey).value;
    ScoreBreakdown(agentKey, p, criteria);
    if AnyFires(rules.primary, p.id, criteria) {
      var i :| 0 <= i < |rules.primary| && Fires(rules.primary[i], p.id, criteria);
      assert rules.primary[i].criterion in criteria;
    } else {
      var i :| 0 <= i < |rules.secondary| && Fires(rules.secondary[i], p.id, criteria);
      assert rules.secondary[i].criterion in criteria;
    }
  }
}
