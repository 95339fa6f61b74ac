/**
 * The prompt catalogue: per agent, descriptive information, an ordered list
 * of prompt variants and the id of the variant to use when no selection
 * criteria are given.  The contents come from four JSON files that are not
 * part of this model, so the catalogue is a value handed to the manager.
 */
module Catalogue {

  /** The `agent_info` record of an agent. */
  datatype AgentInfo = AgentInfo(name: string, description: string, icon: string, color: string)

  /**
   * One prompt variant (`PromptConfig`).  The temperature is passed through
   * to the generation request untouched; token limit and priority are integers.
   */
  datatype PromptConfig = PromptConfig(
    id: string,
    name: string,
    description: string,
    prompt: string,
    temperature: real,
    maxTokens: int,
    priority: int)

  /** The `selection_criteria` record of an agent. */
  datatype SelectionCriteria = SelectionCriteria(defaultPrompt: string, factors: seq<string>)

  /** Everything registered for one agent (`AgentPromptData`). */
  datatype AgentPromptData = AgentPromptData(
    agentInfo: AgentInfo,
    prompts: seq<PromptConfig>,
    selectionCriteria: SelectionCriteria)

  /** The table from agent key to its data. */
  type Catalogue = map<string, AgentPromptData>

  const FraudDetection: string := "fraud_detection"
  const ClaimAssistant: string := "claim_assistant"
  const ProductRecommendation: string := "product_recommendation"
  const ClauseSimplifier: string := "clause_simplifier"

  /** The only agent keys the manager registers. */
  const RegisteredAgents: set<string> :=
    {FraudDetection, ClaimAssistant, ProductRecommendation, ClauseSimplifier}

  /** The key the chat-support panel asks for; it is not registered. */
  const ChatSupport: string := "chat_support"

  /** The catalogue the manager's constructor builds from the four JSON files. */
  function Registered(fraud: AgentPromptData, claim: AgentPromptData,
                      product: AgentPromptData, clause: AgentPromptData): (c: Catalogue)
    ensures c.Keys == RegisteredAgents
    ensures c[FraudDetection] == fraud && c[ClaimAssistant] == claim
    ensures c[ProductRecommendation] == product && c[ClauseSimplifier] == clause
  {
    map[FraudDetection := fraud, ClaimAssistant := claim,
        ProductRecommendation := product, ClauseSimplifier := clause]
  }
}
