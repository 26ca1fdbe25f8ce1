/**
  The OpenAI provider: its capability table, its construction checks, the
  chat messages and system prompt it builds from a request, its token
  estimate and the request validation that guards every generation.
  The network calls themselves (`generate_code`, `check_health`) are
  not part of this model.
 */
module OpenAI {
  import opened Wrappers
  import opened Errors
  import opened Text
  import opened ProviderBase

  /** `CHARS_PER_TOKEN` */
  const CharsPerToken: nat := 4

  /** The token limit of a model the limit table does not know. */
  const DefaultTokenLimit: int := 4096

  /** `MODEL_CAPABILITIES` */
  const ModelCapabilities: map<string, set<Capability>> := map[
    "gpt-4" := {CodeGeneration, CodeReview, CodeRefactoring, Documentation, Testing, FunctionCalling},
    "gpt-4-turbo" := {CodeGeneration, CodeReview, CodeRefactoring, Documentation, Testing, FunctionCalling, Vision},
    "gpt-4-turbo-preview" := {CodeGeneration, CodeReview, CodeRefactoring, Documentation, Testing, FunctionCalling},
    "gpt-3.5-turbo" := {CodeGeneration, CodeReview, Documentation, FunctionCalling}
  ]

  /**
    What the capability table promises: every model generates, reviews,
    documents and calls functions; none streams; only `gpt-4-turbo` sees
    images; only `gpt-3.5-turbo` neither refactors nor writes tests.
   */
  lemma CapabilityTable(model: string)
    requires model in ModelCapabilities
    ensures ModelCapabilities[model] != {}
    ensures CodeGeneration in ModelCapabilities[model] && CodeReview in ModelCapabilities[model]
    ensures Documentation in ModelCapabilities[model] && FunctionCalling in ModelCapabilities[model]
    ensures Streaming !in ModelCapabilities[model]
    ensures Vision in ModelCapabilities[model] <==> model == "gpt-4-turbo"
    ensures CodeRefactoring !in ModelCapabilities[model] <==> model == "gpt-3.5-turbo"
    ensures Testing !in ModelCapabilities[model] <==> model == "gpt-3.5-turbo"
  {
  }

  /** `MODEL_CAPABILITIES.get(model, set())` */
  function CapabilitiesFor(model: string): (caps: set<Capability>)
    ensures caps == {} <==> model !in ModelCapabilities
    ensures model in ModelCapabilities ==> caps == ModelCapabilities[model]
  {
    if model in ModelCapabilities then ModelCapabilities[model] else {}
  }

  /** `api_key or os.getenv("OPENAI_API_KEY")`: an empty argument falls back to the environment. */
  function ApiKey(argument: Option<string>, environment: Option<string>): (key: Option<string>)
    ensures key == argument || key == environment
    ensures argument.Some? && argument.value != "" ==> key == argument
  {
    if argument.Some? && argument.value != "" then argument else environment
  }

  /** The checks of `OpenAIProvider.__init__`, in the order it makes them. */
  function ConstructionCheck(argument: Option<string>, environment: Option<string>, model: string): (r: Outcome<Error>)
    ensures r.Pass? <==> ApiKey(argument, environment) != None && ApiKey(argument, environment) != Some("")
                         && model in ModelCapabilities
    ensures r.Fail? ==> r.error.LLMProviderError?
    ensures r.Fail? && model in ModelCapabilities ==> r.error.failure == MissingApiKey
  {
    var key := ApiKey(argument, environment);
    if key == None || key == Some("") then Fail(LLMProviderError(MissingApiKey))
    else if CapabilitiesFor(model) == {} then Fail(LLMProviderError(UnsupportedModel(model)))
    else Pass
  }

  /**
    `OpenAIProvider(api_key, model)`: a provider whose capabilities are the
    model's row of the table, or the error of the first failed check.
   */
  method NewOpenAIProvider(argument: Option<string>, environment: Option<string>, model: string)
    returns (r: Result<LLMProvider, Error>)
    ensures r.Err? <==> ConstructionCheck(argument, environment, model).Fail?
    ensures r.Err? ==> r.error == ConstructionCheck(argument, environment, model).error
    ensures r.Ok? ==> fresh(r.value) && r.value.className == "OpenAIProvider"
                      && r.value.modelName == model && r.value.capabilitySet == ModelCapabilities[model]
  {
    var check := ConstructionCheck(argument, environment, model);
    if check.Fail? {
      return Err(check.error);
    }
    var provider := new LLMProvider("OpenAIProvider", model);
    provider.capabilitySet := CapabilitiesFor(model);
    r := Ok(provider);
  }

  /** Every model of the table can be constructed once a key is at hand. */
  lemma EveryListedModelConstructs(key: string, environment: Option<string>, model: string)
    requires key != "" && model in ModelCapabilities
    ensures ConstructionCheck(Some(key), environment, model) == Pass
  {
  }

  /** `estimate_tokens(text)`: one token per four characters, at least one. */
  function EstimateTokens(text: string): (n: int)
    ensures n >= 1
    ensures |text| >= CharsPerToken ==> n * CharsPerToken <= |text| < (n + 1) * CharsPerToken
    ensures |text| < 2 * CharsPerToken ==> n == 1
  {
    if |text| / CharsPerToken > 1 then |text| / CharsPerToken else 1
  }

  /** A longer text never has a smaller estimate. */
  lemma EstimateMonotone(a: string, b: string)
    requires |a| <= |b|
    ensures EstimateTokens(a) <= EstimateTokens(b)
  {
  }

  /** `context and context.language` */
  predicate LanguageGiven(context: Option<CodeContext>)
  {
    context.Some? && context.value.language.Some? && context.value.language.value != ""
  }

  /** `context and context.filepath` */
  predicate FileGiven(context: Option<CodeContext>)
  {
    context.Some? && context.value.filepath.Some? && context.value.filepath.value != ""
  }

  /** `request.context and request.context.content` */
  predicate ContentGiven(context: Option<CodeContext>)
  {
    context.Some? && context.value.content != ""
  }

  /** The four sentences of the base prompt, which Python joins at compile time. */
  const BasePrompt: string := "You are an expert software developer and code assistant. Generate clean, efficient, well-structured code following best practices. Include proper error handling, type hints, and documentation when appropriate. Focus on maintainability, performance, and readability."

  const LanguageLead: string := " You are working with "
  const FileLead: string := " The target file is: "

  function LanguageClause(context: Option<CodeContext>): (c: string)
    ensures c == "" <==> !LanguageGiven(context)
    ensures c != "" ==> StartsWith(c, LanguageLead)
  {
    if LanguageGiven(context) then LanguageLead + context.value.language.value + " code." else ""
  }

  function FileClause(context: Option<CodeContext>): (c: string)
    ensures c == "" <==> !FileGiven(context)
    ensures c != "" ==> c == FileLead + context.value.filepath.value
  {
    if FileGiven(context) then FileLead + context.value.filepath.value else ""
  }

  /** The shape of a prompt assembled from a base and two optional clauses. */
  lemma PromptParts(base: string, lang: string, file: string)
    requires lang == "" || StartsWith(lang, LanguageLead)
    requires file == "" || StartsWith(file, FileLead)
    ensures StartsWith(base + lang + file, base)
    ensures (base + lang + file)[|base|..] == lang + file
    ensures StartsWith(lang + file, LanguageLead) <==> lang != ""
    ensures EndsWith(base + lang + file, file)
    ensures base + lang + file == base <==> lang == "" && file == ""
  {
    assert (base + lang + file)[..|base|] == base;
    assert (base + lang + file)[|base|..] == lang + file;
    if lang == "" && file != "" {
      assert (lang + file)[1] == file[1] == 'T' != LanguageLead[1];
    }
    if base + lang + file == base {
      assert |lang + file| == 0;
    }
  }

  /** `_build_system_prompt(context)`: the base prompt and the two optional sentences. */
  function SystemPrompt(context: Option<CodeContext>): string
  {
    BasePrompt + LanguageClause(context) + FileClause(context)
  }

  /**
    The system prompt always opens with the base prompt; the language
    sentence follows it exactly when a language is given, the file sentence
    ends it when a file is given, and with neither it is the base prompt alone.
   */
  lemma SystemPromptShape(context: Option<CodeContext>)
    ensures StartsWith(SystemPrompt(context), BasePrompt)
    ensures LanguageGiven(context) <==> StartsWith(SystemPrompt(context)[|BasePrompt|..], LanguageLead)
    ensures FileGiven(context) ==> EndsWith(SystemPrompt(context), FileLead + context.value.filepath.value)
    ensures SystemPrompt(context) == BasePrompt <==> !LanguageGiven(context) && !FileGiven(context)
  {
    PromptParts(BasePrompt, LanguageClause(context), FileClause(context));
  }

  /** One chat message. */
  datatype Message = Message(role: string, content: string)

  const ContextLead: string := "Here's the current code for context:\n\n```"

  /** The third message: the code in a fenced block tagged with its language. */
  function ContextMessage(context: CodeContext): (m: Message)
    ensures m.role == "user"
    ensures StartsWith(m.content, ContextLead)
    ensures EndsWith(m.content, "\n" + context.content + "\n```")
  {
    var tag := if context.language.Some? then context.language.value else "";
    var text := ContextLead + tag + "\n" + context.content + "\n```";
    assert text == (ContextLead + tag) + ("\n" + context.content + "\n```");
    Message("user", text)
  }

  /**
    `_build_messages(request)`: the system prompt, the instruction, and the
    context's code only when the context has any.
   */
  function BuildMessages(request: GenerationRequest): (ms: seq<Message>)
    ensures |ms| == (if ContentGiven(request.context) then 3 else 2)
    ensures ms[0] == Message("system", SystemPrompt(request.context))
    ensures ms[1] == Message("user", request.instruction)
    ensures |ms| == 3 ==> ms[2] == ContextMessage(request.context.value)
    ensures forall k :: 1 <= k < |ms| ==> ms[k].role == "user"
  {
    var ms := [Message("system", SystemPrompt(request.context)), Message("user", request.instruction)];
    if ContentGiven(request.context) then ms + [ContextMessage(request.context.value)] else ms
  }

  /** The estimate of everything a request sends, without the completion. */
  function PromptTokens(request: GenerationRequest): (n: int)
    ensures n >= 2
    ensures ContentGiven(request.context) ==> n >= 3
  {
    EstimateTokens(request.instruction)
    + (if ContentGiven(request.context) then EstimateTokens(request.context.value.content) else 0)
    + EstimateTokens(SystemPrompt(request.context))
  }

  /** `_estimate_request_tokens(request)`: the prompt estimate plus the requested completion. */
  function RequestTokens(request: GenerationRequest): (n: int)
    ensures n >= request.maxTokens + 2
  {
    PromptTokens(request) + request.maxTokens
  }

  /** The estimate counts the requested completion in full: asking for more costs exactly that much more. */
  lemma RequestTokensShift(request: GenerationRequest, extra: int)
    ensures RequestTokens(request.(maxTokens := request.maxTokens + extra)) == RequestTokens(request) + extra
  {
  }

  /** `_get_model_token_limit()` */
  function TokenLimit(model: string): (limit: int)
    ensures limit >= DefaultTokenLimit
    ensures model == "gpt-4" ==> limit == 8192
    ensures model == "gpt-3.5-turbo" ==> limit == 16384
    ensures model == "gpt-4-turbo" || model == "gpt-4-turbo-preview" ==> limit == 128000
  {
    if model == "gpt-4" then 8192
    else if model == "gpt-4-turbo" then 128000
    else if model == "gpt-4-turbo-preview" then 128000
    else if model == "gpt-3.5-turbo" then 16384
    else DefaultTokenLimit
  }

  /** The two tables agree: a model outside the limit table is outside the capability table too. */
  lemma TokenLimitCoversTable(model: string)
    ensures model in ModelCapabilities <==> TokenLimit(model) > DefaultTokenLimit
  {
  }

  /** `validate_request(request)`: the checks in the order the provider makes them. */
  function ValidateRequest(model: string, request: GenerationRequest): (r: Outcome<Error>)
    ensures r.Pass? <==> !IsBlank(request.instruction) && request.maxTokens > 0
                         && 0.0 <= request.temperature <= 2.0
                         && RequestTokens(request) <= TokenLimit(model)
    ensures IsBlank(request.instruction) ==> r == Fail(LLMProviderError(EmptyInstruction))
    ensures r.Fail? ==> r.error.LLMProviderError?
    ensures r.Fail? && r.error.failure.TokenLimitExceeded? ==>
              r.error.failure.estimated > r.error.failure.limit == TokenLimit(model)
  {
    if IsBlank(request.instruction) then Fail(LLMProviderError(EmptyInstruction))
    else if request.maxTokens <= 0 then Fail(LLMProviderError(NonPositiveMaxTokens))
    else if !(0.0 <= request.temperature <= 2.0) then Fail(LLMProviderError(TemperatureOutOfRange))
    else if RequestTokens(request) > TokenLimit(model) then
      Fail(LLMProviderError(TokenLimitExceeded(RequestTokens(request), TokenLimit(model))))
    else Pass
  }

  /**
    A validated request leaves room for its prompt: it never asks for more
    than two tokens below the model's limit.
   */
  lemma ValidatedRequestFits(model: string, request: GenerationRequest)
    requires ValidateRequest(model, request).Pass?
    ensures 0 < request.maxTokens <= TokenLimit(model) - 2
    ensures request.maxTokens <= 128000 - 2
  {
  }

  /** `GenerationRequest(instruction, context)` with its field defaults. */
  function DefaultRequest(instruction: string, context: Option<CodeContext>): (request: GenerationRequest)
    ensures request.instruction == instruction && request.context == context
    ensures request.maxTokens == 4096 && request.stopSequences == []
    ensures 0.0 <= request.temperature <= 2.0
  {
    GenerationRequest(instruction, context, 4096, 0.2, [])
  }

  /**
    A request with the default completion size passes only for a model with a
    limit above the fallback limit: the prompt alone pushes it over 4096.
   */
  lemma DefaultRequestNeedsKnownModel(model: string, instruction: string, context: Option<CodeContext>)
    requires ValidateRequest(model, DefaultRequest(instruction, context)).Pass?
    ensures model in ModelCapabilities
  {
    TokenLimitCoversTable(model);
  }
}
