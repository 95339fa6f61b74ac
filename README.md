# Dynamic prompt manager, modelled in Dafny

This project models the prompt layer of an insurance assistant platform: the
`DynamicPromptManager` class in `src/lib/dynamicPromptManager.ts`. The class
keeps a catalogue of prompt variants for four agents: fraud detection, claim
assistance, product recommendation and clause simplification. From that
catalogue it does three things:

- it selects a variant for a request, either the agent's declared default or
  the best-scoring one under the caller's selection criteria;
- it substitutes `{key}` placeholders in the chosen template, one variable
  after another;
- it packs the resulting text into the request for the text-generation
  endpoint.

The modules follow the structure of the class:

- `Wrappers`: `Option` and `Result`. An undefined result becomes `Option`, and
  the thrown "No prompts available" error becomes `Result`.
- `Catalogue`: the records read from the four JSON files and the table the
  constructor builds from them.
- `Scoring`: the scoring heuristic as a rule table. Each agent has two else-if
  chains of rules, and `Score` is the reference definition of a variant's score.
- `Selection`: stable sorting by descending score. `SortByScoreDesc` is an
  in-place insertion sort on an array, proved equal to the functional
  `StableSortDesc`. `Choose` is what selection returns.
- `Text` and `Placeholders`: literal substring search and global replacement,
  and facts about `{key}` markers.
- `Substitution`: the substitution fold `SubstituteAll` and its properties.
- `ApiRequest`: the request record and its inverse reading.
- `PromptManager`: the class itself. It holds the lookups, the four scorers
  written as their literal step-by-step `+=` code, `calculatePromptScore`,
  `selectBestPrompt` and `getOptimizedPrompt`. `getInstance`'s static field
  becomes the `InstanceHolder` class.

Each imperative method is proved against a specification function:

- every scorer method returns `Score`;
- `SelectBestPrompt` returns `Choose`;
- `GetOptimizedPrompt` returns `Choose` followed by `SubstituteAll`.

The properties are then proved about those functions.

The chat-support panel asks the manager for the key `chat_support`: it calls
`getOptimizedPrompt('chat_support', …)` (`src/components/ChatSupport.tsx:40`)
and `getAgentConfig('chat_support')` (`src/components/ChatSupport.tsx:90`).
The constructor (`src/lib/dynamicPromptManager.ts:54-59`) registers only four
keys, and `chat_support` is not one of them. So `getAgentConfig` yields
`undefined` for it (`PromptManager.UnregisteredAgentFails`), and the panel
reads `agentConfig.name` from that `undefined` when it renders
(`src/components/ChatSupport.tsx:98`). Rendering therefore throws a
`TypeError` before any request is made. The error a request would hit is
"No prompts available for agent: chat_support"
(`PromptManager.ChatSupportFails`), but the panel fails at render first.

## Model

| member | source | states |
|---|---|---|
| Catalogue.Registered | src/lib/dynamicPromptManager.ts:53-60 | the table has exactly the four agent keys, each mapped to the data of its own JSON file |
| PromptManager.DynamicPromptManager.constructor | src/lib/dynamicPromptManager.ts:53-60 | the manager's table is the four-agent table, so exactly the four agents are registered |
| PromptManager.InstanceHolder.constructor | src/lib/dynamicPromptManager.ts:50 | no manager is stored before the first `getInstance` call, and the holder's invariant (a stored manager registers exactly the four agents) holds |
| PromptManager.InstanceHolder.GetInstance | src/lib/dynamicPromptManager.ts:62-67 | the first call creates a fresh manager and stores it; every later call returns the stored object unchanged; the returned manager registers exactly the four agents |
| PromptManager.DynamicPromptManager.GetAgentConfig | src/lib/dynamicPromptManager.ts:72-74 | in a valid manager the agent info is defined exactly for the four registered agents, and is then that agent's `agent_info` |
| PromptManager.DynamicPromptManager.GetAvailablePrompts | src/lib/dynamicPromptManager.ts:79-81 | in a valid manager a key outside the four registered agents gives the empty list; a registered agent gives its variants in listing order |
| PromptManager.DynamicPromptManager.DefaultPromptId | src/lib/dynamicPromptManager.ts:94 | in a valid manager the default id is defined exactly for the four registered agents, and is then that agent's `selection_criteria.default_prompt` |
| PromptManager.UnregisteredAgentFails | src/lib/dynamicPromptManager.ts:72-90 | for any key outside the four, the agent info is undefined, the variant list is empty and selection fails with `NoPromptsAvailable(key)` whatever the criteria |
| PromptManager.ChatSupportFails | src/components/ChatSupport.tsx:40-46 | selection for `chat_support` always fails, and the error text is "No prompts available for agent: chat_support" |
| Scoring.ScoringTable | src/lib/dynamicPromptManager.ts:116-131 | a rule table exists exactly for the four registered keys |
| Scoring.ChainBonusAward | src/lib/dynamicPromptManager.ts:140-146 | an else-if chain awards its bonus or nothing: the bonus if some rule of the chain fires, nothing if none fires, never more than once |
| Scoring.ScoreBreakdown | src/lib/dynamicPromptManager.ts:136-230 | for a registered agent the score is `10*priority` plus `b1` in {0,20} plus `b2` in {0,15}; `b1` is 20 exactly when a rule of the first chain fires, and `b2` is 15 exactly when a rule of the second fires |
| Scoring.BonusNeedsCriteria | src/lib/dynamicPromptManager.ts:136-230 | a score other than `10*priority` needs at least one criterion set |
| PromptManager.DynamicPromptManager.ScoreFraudDetectionPrompt | src/lib/dynamicPromptManager.ts:136-158 | the step-by-step score equals the rule-table score: response time fast/detailed/standard with v2/v3/v1 for 20, complexity simple/complex/moderate with v2/v3/v1 for 15 |
| PromptManager.DynamicPromptManager.ScoreClaimAssistantPrompt | src/lib/dynamicPromptManager.ts:160-182 | the step-by-step score equals the rule-table score: rejection complexity simple/complex/moderate with v2/v3/v1 for 20, legal involvement extensive/none/basic with v3/v2/v1 for 15 |
| PromptManager.DynamicPromptManager.ScoreProductRecommendationPrompt | src/lib/dynamicPromptManager.ts:184-206 | the step-by-step score equals the rule-table score: budget low/high/medium with v2/v3/v1 for 20, coverage basic/comprehensive/standard with v2/v3/v1 for 15 |
| PromptManager.DynamicPromptManager.ScoreClauseSimplifierPrompt | src/lib/dynamicPromptManager.ts:208-230 | the step-by-step score equals the rule-table score: language complexity simple/complex/moderate with v2/v3/v1 for 20, legal importance high/low/medium with v3/v2/v1 for 15 |
| PromptManager.DynamicPromptManager.CalculatePromptScore | src/lib/dynamicPromptManager.ts:113-134 | the score is the agent's rule-table score, or the bare priority for a key without a scorer |
| PromptManager.DefaultBranchUnreachable | src/lib/dynamicPromptManager.ts:129-130 | any agent that has variants in a manager is registered and has a scorer, so the priority fallback never takes part in a selection |
| Selection.InsertDescPermutes | src/lib/dynamicPromptManager.ts:106 | one insertion step of the sort adds exactly the inserted element |
| Selection.InsertDescSorted | src/lib/dynamicPromptManager.ts:106 | inserting into a descending sequence keeps it descending |
| Selection.StableSortDescSorted | src/lib/dynamicPromptManager.ts:106 | the stable order is descending by score and is a permutation of the input |
| Selection.FirstMaxIndex | src/lib/dynamicPromptManager.ts:106-107 | the index has a maximal score, and every earlier element scores strictly less |
| Selection.StableSortHead | src/lib/dynamicPromptManager.ts:106-107 | the head of the stable order is the first element, in listing order, of maximal score |
| Selection.SortByScoreDesc | src/lib/dynamicPromptManager.ts:106 | the in-place sort leaves the array in the stable descending order of its old contents |
| Selection.FindById | src/lib/dynamicPromptManager.ts:95 | a variant is found exactly when the id is defined and some variant has it; the one found is the first with that id |
| Selection.Choose | src/lib/dynamicPromptManager.ts:86-108 | selection fails exactly when the agent has no variants, and then with `NoPromptsAvailable(agentKey)`; otherwise it returns one of the agent's variants |
| Selection.ChooseDefault | src/lib/dynamicPromptManager.ts:93-97 | with empty criteria the result is the first variant whose id is the declared default, and `prompts[0]` when no id matches |
| Selection.ChooseBest | src/lib/dynamicPromptManager.ts:99-107 | with criteria the result has a score no lower than any variant's, and every earlier variant scores strictly less |
| Selection.BonusWins | src/lib/dynamicPromptManager.ts:99-107 | a variant that earns a bonus is selected over variants of no higher priority that earn none |
| PromptManager.DynamicPromptManager.SelectBestPrompt | src/lib/dynamicPromptManager.ts:86-108 | the method, with its scoring loop and in-place sort, returns exactly `Choose` on the agent's variants and default id |
| PromptManager.DynamicPromptManager.GetOptimizedPrompt | src/lib/dynamicPromptManager.ts:238-259 | a failed selection is passed on; otherwise the prompt is the selected template after substituting every variable in order, and temperature, token limit and id are the selected variant's, unchanged |
| Substitution.SubstituteSnoc | src/lib/dynamicPromptManager.ts:248-251 | each further variable performs one more global replacement of the text built so far |
| Substitution.SubstituteBraced | src/lib/dynamicPromptManager.ts:245-251 | for a template whose braces do not nest and brace-free variables, `{other}` remains exactly when `other` is no supplied key and `{other}` was in the template |
| Substitution.NoPlaceholderRemains | src/lib/dynamicPromptManager.ts:245-251 | under the same conditions no `{key}` of a supplied key is left |
| Substitution.SubstituteKeepsUnmatched | src/lib/dynamicPromptManager.ts:245-251 | a template placeholder with no supplied variable survives literally, whatever the values |
| Substitution.SubstituteAbsentEntry | src/lib/dynamicPromptManager.ts:248-251 | a variable whose placeholder is absent from the text so far changes nothing |
| Substitution.SubstituteNothingToReplace | src/lib/dynamicPromptManager.ts:245-251 | a template holding none of the supplied placeholders comes back unchanged |
| Substitution.LaterValueRewritten | src/lib/dynamicPromptManager.ts:248-251 | for all keys `a`, `b` and every value `x`, "{a}" with a := "{b}" and then b := x comes out as `x`: a value introducing a later key's placeholder is rewritten by that later variable |
| Substitution.EarlierValueSurvives | src/lib/dynamicPromptManager.ts:248-251 | for distinct brace-free keys `a`, `b`, "{b}" with a := x and then b := "{a}" comes out as "{a}": a value introducing an earlier key's placeholder is not rewritten, so a supplied key's placeholder remains |
| Substitution.SubstituteTwo | src/lib/dynamicPromptManager.ts:245-251 | for brace-free text around the placeholders of two distinct brace-free keys, and a brace-free first value, both values land in place, as in "Hello {name}, amount {amount}" |
| Substitution.GreetingExample | src/lib/dynamicPromptManager.ts:245-251 | "Hello {name}, amount {amount}" with name := "Alice" and amount := "100" comes out as "Hello Alice, amount 100" |
| Placeholders.ReplacePlaceholder | src/lib/dynamicPromptManager.ts:249-250 | replacing `{key}` by a brace-free value in unnested text, with brace-free keys, removes every `{key}`, keeps every other placeholder, adds none and keeps the braces unnested |
| Placeholders.ReplaceKeepsOtherPlaceholder | src/lib/dynamicPromptManager.ts:249-250 | replacing `{key}`, whatever the value, never destroys a placeholder of another key |
| Text.ReplaceAllIsSplitJoin | src/lib/dynamicPromptManager.ts:250 | a global replacement replaces every occurrence: the text is its pieces joined by the pattern, no piece holds the pattern, and the result is the same pieces joined by the value |
| Text.ReplaceAbsent | src/lib/dynamicPromptManager.ts:250 | a pattern that does not occur leaves the text unchanged |
| Text.ContainsIffOccursAt | src/lib/dynamicPromptManager.ts:140 | `includes` holds exactly when the pattern occurs at some index |
| ApiRequest.CreateApiConfig | src/lib/dynamicPromptManager.ts:264-283 | the request is a POST with a JSON content type, one content holding one part, top-p 0.8 and top-k 40 |
| ApiRequest.CreateReadRoundTrip | src/lib/dynamicPromptManager.ts:264-283 | reading a built request gives back the prompt verbatim with the temperature and token limit unchanged; every well-shaped request is the one built from what it carries, so nothing else, the agent included, varies |

## Left out

- The React components, `src/pages/Index.tsx`, toasts, the `fetch` call, the API-key read and the response-text fallback. These are UI and network I/O.
- `formatMarkdown`. It is rendering glue whose meaning lies in the regular-expression engine.
- The contents of the four prompt JSON files. They are not part of this model, so the constructor and `GetInstance` take them as parameters.
- `getProjectInfo`. It only returns constant metadata.
- `JSON.stringify` of the body. The body is kept as a structured record (`ApiRequest.RequestBody`), and the headers as a map.
- Floating point. `temperature` and `topP` are `real` values that are only passed through, and `priority` and `max_tokens` are unbounded integers.
- Default arguments. `selectBestPrompt` and `getOptimizedPrompt` default an omitted `criteria` argument to `{}` (`src/lib/dynamicPromptManager.ts:86`, `:238`); in the model the caller always passes criteria, and an omitted argument is `map[]`.
- Selection criteria. They are a map from criterion name to value. A criterion key that is present with the value `undefined` counts for `Object.keys` but matches no rule; the model has no such keys.
- The order of `Object.entries`. `Substitution.Variables` is the ordered list of (key, value) pairs that `Object.entries` yields. JavaScript's rule that integer-like keys come first is not modelled.
- Regular-expression syntax in substitution. The placeholder is treated as a literal pattern, which holds for plain identifier keys. Keys with metacharacters and `$&` or `$1` patterns in values are not modelled.
- The sort algorithm. The array sort is modelled by an insertion sort. Only its result is modelled, which is the same for every stable sort with the comparator `b.score - a.score`.
- Substitution.SubstituteBraced: the "no placeholder of a supplied key remains" direction is stated only for templates whose braces do not nest and for brace-free keys and values. It fails otherwise: "{{k}}" with k := "k" gives "{k}", and "{b}" with a := x and then b := "{a}" gives "{a}", because a value holding an earlier key's placeholder is never rewritten (`Substitution.EarlierValueSurvives`).
- Substitution.NoPlaceholderRemains: stated under the same conditions as `Substitution.SubstituteBraced`, for the same reason.
