/**
 * The request `createApiConfig` builds for the text-generation endpoint,
 * with the JSON body kept as a structured value instead of its serialised text.
 */
module ApiRequest {
  import opened Wrappers

  datatype Part = Part(text: string)
  datatype Content = Content(parts: seq<Part>)
  datatype GenerationConfig = GenerationConfig(
    temperature: real,
    maxOutputTokens: int,
    topP: real,
    topK: int)
  datatype RequestBody = RequestBody(contents: seq<Content>, generationConfig: GenerationConfig)

  /** The fetch options: HTTP method, headers and body. */
  datatype ApiConfig = ApiConfig(httpMethod: string, headers: map<string, string>, body: RequestBody)

  const Post: string := "POST"
  const JsonHeaders: map<string, string> := map["Content-Type" := "application/json"]
  const TopP: real := 0.8
  const TopK: int := 40

  /** The fixed shape of every request: one content holding one text part, fixed headers and sampling limits. */
  predicate WellShaped(c: ApiConfig)
  {
    && c.httpMethod == Post
    && c.headers == JsonHeaders
    && |c.body.contents| == 1
    && |c.body.contents[0].parts| == 1
    && c.body.generationConfig.topP == TopP
    && c.body.generationConfig.topK == TopK
  }

  /** `createApiConfig(prompt, temperature, maxTokens)`; it does not depend on the agent. */
  function CreateApiConfig(prompt: string, temperature: real, maxTokens: int): (c: ApiConfig)
    ensures WellShaped(c)
  {
    ApiConfig(Post, JsonHeaders,
      RequestBody([Content([Part(prompt)])],
        GenerationConfig(temperature, maxTokens, TopP, TopK)))
  }

  /** The prompt, temperature and token limit a well-shaped request carries. */
  function ReadRequest(c: ApiConfig): (r: Option<(string, real, int)>)
    ensures r.Some? <==> WellShaped(c)
  {
    if WellShaped(c) then
      Some((c.body.contents[0].parts[0].text,
            c.body.generationConfig.temperature,
            c.body.generationConfig.maxOutputTokens))
    else None
  }

  /**
   * The request carries the prompt verbatim as its only text and the
   * temperature and token limit unchanged, and nothing else varies: reading
   * a request back inverts building one, and every well-shaped request is
   * built from what it carries.
   */
  lemma CreateReadRoundTrip(prompt: string, temperature: real, maxTokens: int, c: ApiConfig)
    ensures ReadRequest(CreateApiConfig(prompt, temperature, maxTokens)) == Some((prompt, temperature, maxTokens))
    ensures ReadRequest(c) == Some((prompt, temperature, maxTokens))
        ==> c == CreateApiConfig(prompt, temperature, maxTokens)
  {
    if ReadRequest(c) == Some((prompt, temperature, maxTokens)) {
      var content := c.body.contents[0];
      assert content.parts == [Part(prompt)] by {
        assert content.parts == [content.parts[0]];
      }
      assert c.body.contents == [content];
      assert c.body.generationConfig == GenerationConfig(temperature, maxTokens, TopP, TopK);
    }
  }
}
