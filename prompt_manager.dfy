/**
 * The `DynamicPromptManager` class: catalogue lookup, scoring, variant
 * selection, variable substitution and the process-wide single instance.
 */
module PromptManager {
  import opened Wrappers
  import opened Text
  import opened Catalogue
  import opened Scoring
  import opened Selection
  import opened Placeholders
  import opened Substitution

  /** What `getOptimizedPrompt` returns. */
  datatype OptimizedPrompt = OptimizedPrompt(prompt: string, temperature: real, maxTokens: int, promptId: string)

  class DynamicPromptManager {
    /** The agent table; set once by the constructor and never changed. */
    const promptData: Catalogue

    /** The four JSON files become the constructor's parameters. */
    constructor (fraud: AgentPromptData, claim: AgentPromptData,
                 product: AgentPromptData, clause: AgentPromptData)
      ensures promptData == Registered(fraud, claim, product, clause)
      ensures Valid()
    {
      promptData := Registered(fraud, claim, product, clause);
    }

    /** Exactly the four agents are registered. */
    predicate Valid()
    {
      promptData.Keys == RegisteredAgents
    }

    /** `getAgentConfig`: the agent's info, undefined for an unknown key. */
    function GetAgentConfig(agentKey: string): (r: Option<AgentInfo>)
      ensures r.Some? <==> agentKey in promptData
      ensures r.Some? ==> r.value == promptData[agentKey].agentInfo
      ensures Valid() ==> (r.Some? <==> agentKey in RegisteredAgents)
    {
      if agentKey in promptData then Some(promptData[agentKey].agentInfo) else None
    }

    /** `getAvailablePrompts`: the agent's variants, the empty list for an unknown key. */
    function GetAvailablePrompts(agentKey: string): (r: seq<PromptConfig>)
      ensures agentKey !in promptData ==> r == []
      ensures agentKey in promptData ==> r == promptData[agentKey].prompts
      ensures Valid() && agentKey !in RegisteredAgents ==> r == []
    {
      if agentKey in promptData then promptData[agentKey].prompts else []
    }

    /** `promptData[agentKey]?.selection_criteria?.default_prompt`. */
    function DefaultPromptId(agentKey: string): (r: Option<string>)
      ensures r.Some? <==> agentKey in promptData
      ensures r.Some? ==> r.value == promptData[agentKey].selectionCriteria.defaultPrompt
      ensures Valid() ==> (r.Some? <==> agentKey in RegisteredAgents)
    {
      if agentKey in promptData then Some(promptData[agentKey].selectionCriteria.defaultPrompt) else None
    }

    /** `scoreFraudDetectionPrompt`. */
    method ScoreFraudDetectionPrompt(p: PromptConfig, criteria: Criteria) returns (score: int)
      ensures score == Score(FraudDetection, p, criteria)
    {
      score := p.priority * 10;
      if IsSet(criteria, "response_time_requirement", "fast") && Contains(p.id, "v2") {
        score := score + 20;
      } else if IsSet(criteria, "response_time_requirement", "detailed") && Contains(p.id, "v3") {
        score := score + 20;
      } else if IsSet(criteria, "response_time_requirement", "standard") && Contains(p.id, "v1") {
        score := score + 20;
      }
      if IsSet(criteria, "complexity_level", "simple") && Contains(p.id, "v2") {
        score := score + 15;
      } else if IsSet(criteria, "complexity_level", "complex") && Contains(p.id, "v3") {
        score := score + 15;
      } else if IsSet(criteria, "complexity_level", "moderate") && Contains(p.id, "v1") {
        score := score + 15;
      }
    }

    /** `scoreClaimAssistantPrompt`. */
    method ScoreClaimAssistantPrompt(p: PromptConfig, criteria: Criteria) returns (score: int)
      ensures score == Score(ClaimAssistant, p, criteria)
    {
      score := p.priority * 10;
      if IsSet(criteria, "complexity_of_rejection", "simple") && Contains(p.id, "v2") {
        score := score + 20;
      } else if IsSet(criteria, "complexity_of_rejection", "complex") && Contains(p.id, "v3") {
        score := score + 20;
      } else if IsSet(criteria, "complexity_of_rejection", "moderate") && Contains(p.id, "v1") {
        score := score + 20;
      }
      if IsSet(criteria, "legal_involvement", "extensive") && Contains(p.id, "v3") {
        score := score + 15;
      } else if IsSet(criteria, "legal_involvement", "none") && Contains(p.id, "v2") {
        score := score + 15;
      } else if IsSet(criteria, "legal_involvement", "basic") && Contains(p.id, "v1") {
        score := score + 15;
      }
    }

    /** `scoreProductRecommendationPrompt`. */
    method ScoreProductRecommendationPrompt(p: PromptConfig, criteria: Criteria) returns (score: int)
      ensures score == Score(ProductRecommendation, p, criteria)
    {
      score := p.priority * 10;
      if IsSet(criteria, "budget_constraints", "low") && Contains(p.id, "v2") {
        score := score + 20;
      } else if IsSet(criteria, "budget_constraints", "high") && Contains(p.id, "v3") {
        score := score + 20;
      } else if IsSet(criteria, "budget_constraints", "medium") && Contains(p.id, "v1") {
        score := score + 20;
      }
      if IsSet(criteria, "coverage_complexity", "basic") && Contains(p.id, "v2") {
        score := score + 15;
      } else if IsSet(criteria, "coverage_complexity", "comprehensive") && Contains(p.id, "v3") {
        score := score + 15;
      } else if IsSet(criteria, "coverage_complexity", "standard") && Contains(p.id, "v1") {
        score := score + 15;
      }
    }

    /** `scoreClauseSimplifierPrompt`. */
    method ScoreClauseSimplifierPrompt(p: PromptConfig, criteria: Criteria) returns (score: int)
      ensures score == Score(ClauseSimplifier, p, criteria)
    {
      score := p.priority * 10;
      if IsSet(criteria, "complexity_of_language", "simple") && Contains(p.id, "v2") {
        score := score + 20;
      } else if IsSet(criteria, "complexity_of_language", "complex") && Contains(p.id, "v3") {
        score := score + 20;
      } else if IsSet(criteria, "complexity_of_language", "moderate") && Contains(p.id, "v1") {
        score := score + 20;
      }
      if IsSet(criteria, "legal_importance", "high") && Contains(p.id, "v3") {
        score := score + 15;
      } else if IsSet(criteria, "legal_importance", "low") && Contains(p.id, "v2") {
        score := score + 15;
      } else if IsSet(criteria, "legal_importance", "medium") && Contains(p.id, "v1") {
        score := score + 15;
      }
    }

    /** `calculatePromptScore`: dispatch on the agent key, the bare priority for any other key. */
    method CalculatePromptScore(agentKey: string, p: PromptConfig, criteria: Criteria) returns (score: int)
      ensures score == Score(agentKey, p, criteria)
    {
      if agentKey == FraudDetection {
        score := ScoreFraudDetectionPrompt(p, criteria);
      } else if agentKey == ClaimAssistant {
        score := ScoreClaimAssistantPrompt(p, criteria);
      } else if agentKey == ProductRecommendation {
        score := ScoreProductRecommendationPrompt(p, criteria);
      } else if agentKey == ClauseSimplifier {
        score := ScoreClauseSimplifierPrompt(p, criteria);
      } else {
        score := p.priority;
      }
    }

    /**
     * `selectBestPrompt`: the error for an agent without variants, the default
     * variant for empty criteria, else the head of the scored variants after
     * an in-place stable sort by descending score.
     */
    method SelectBestPrompt(agentKey: string, criteria: Criteria) returns (r: Result<PromptConfig, PromptError>)
      ensures r == Choose(GetAvailablePrompts(agentKey), DefaultPromptId(agentKey), agentKey, criteria)
    {
      var prompts := GetAvailablePrompts(agentKey);
      if |prompts| == 0 {
        return Failure(NoPromptsAvailable(agentKey));
      }
      if |criteria| == 0 {
        var found := FindById(prompts, DefaultPromptId(agentKey));
        if found.Some? {
          return Success(found.value);
        }
        return Success(prompts[0]);
      }
      var scored := new Scored[|prompts|];
      var i := 0;
      while i < |prompts|
        invariant 0 <= i <= |prompts|
        invariant forall k :: 0 <= k < i ==> scored[k] == Scored(prompts[k], Score(agentKey, prompts[k], criteria))
      {
        var score := CalculatePromptScore(agentKey, prompts[i], criteria);
        scored[i] := Scored(prompts[i], score);
        i := i + 1;
      }
      assert scored[..] == ScoreAll(agentKey, prompts, criteria);
      SortByScoreDesc(scored);
      return Success(scored[0].prompt);
    }

    /**
     * `getOptimizedPrompt`: select a variant, then replace the placeholder of
     * each variable in turn; the selected variant's temperature, token limit
     * and id are passed through unchanged.
     */
    method GetOptimizedPrompt(agentKey: string, variables: Variables, criteria: Criteria)
      returns (r: Result<OptimizedPrompt, PromptError>)
      ensures var chosen := Choose(GetAvailablePrompts(agentKey), DefaultPromptId(agentKey), agentKey, criteria);
        && (chosen.Failure? ==> r == Failure(chosen.error))
        && (chosen.Success? ==> r == Success(OptimizedPrompt(SubstituteAll(chosen.value.prompt, variables),
              chosen.value.temperature, chosen.value.maxTokens, chosen.value.id)))
    {
      var selected := SelectBestPrompt(agentKey, criteria);
      if selected.Failure? {
        return Failure(selected.error);
      }
      var chosen := selected.value;
      var prompt := chosen.prompt;
      var i := 0;
      while i < |variables|
        invariant 0 <= i <= |variables|
        invariant prompt == SubstituteAll(chosen.prompt, variables[..i])
      {
        var (key, value) := variables[i];
        assert variables[..i + 1][..i] == variables[..i];
        prompt := ReplaceAll(prompt, Placeholder(key), value);
        i := i + 1;
      }
      assert variables[..i] == variables;
      return Success(OptimizedPrompt(prompt, chosen.temperature, chosen.maxTokens, chosen.id));
    }
  }

  /**
   * `getInstance`'s static field: the first call creates the manager, every
   * later call returns that same object.
   */
  class InstanceHolder {
    var instance: DynamicPromptManager?

    constructor ()
      ensures instance == null && Valid()
    {
      instance := null;
    }

    /** A stored manager registers exactly the four agents. */
    predicate Valid()
      reads this
    {
      instance != null ==> instance.Valid()
    }

    /** `getInstance`, with the four JSON files as parameters. */
    method GetInstance(fraud: AgentPromptData, claim: AgentPromptData,
                       product: AgentPromptData, clause: AgentPromptData)
      returns (m: DynamicPromptManager)
      requires Valid()
      modifies this
      ensures Valid() && m.Valid() && instance == m
      ensures old(instance) != null ==> m == old(instance)
      ensures old(instance) == null ==> fresh(m) && m.promptData == Registered(fraud, claim, product, clause)
    {
      if instance == null {
        instance := new DynamicPromptManager(fraud, claim, product, clause);
      }
      m := instance;
    }
  }

  /**
   * An agent key that is not registered has no info and no variants, and
   * selecting for it fails with the "No prompts available" error.
   */
  lemma UnregisteredAgentFails(m: DynamicPromptManager, agentKey: string, criteria: Criteria)
    requires m.Valid() && agentKey !in RegisteredAgents
    ensures m.GetAgentConfig(agentKey) == None
    ensures m.GetAvailablePrompts(agentKey) == []
    ensures Choose(m.GetAvailablePrompts(agentKey), m.DefaultPromptId(agentKey), agentKey, criteria)
         == Failure(NoPromptsAvailable(agentKey))
  {
  }

  /** The chat-support panel's request for `chat_support` always fails. */
  lemma ChatSupportFails(m: DynamicPromptManager, criteria: Criteria)
    requires m.Valid()
    ensures Choose(m.GetAvailablePrompts(ChatSupport), m.DefaultPromptId(ChatSupport), ChatSupport, criteria)
         == Failure(NoPromptsAvailable(ChatSupport))
    ensures ErrorMessage(NoPromptsAvailable(ChatSupport)) == "No prompts available for agent: chat_support"
  {
    UnregisteredAgentFails(m, ChatSupport, criteria);
  }

  /**
   * The fallback score `priority` is never used for a selection: an agent
   * with variants is registered and so has a scorer.
   */
  lemma DefaultBranchUnreachable(m: DynamicPromptManager, agentKey: string)
    requires m.Valid() && m.GetAvailablePrompts(agentKey) != []
    ensures agentKey in RegisteredAgents && ScoringTable(agentKey).Some?
  {
  }
}
