/**
 * The operations of MistralDirectService: where the API key comes from,
 * which transcription model is used, and the five calls to the Mistral
 * API. Each call resolves the key (throwing `missingAPIKey` before any
 * request), builds its request, runs it through the retry loop of
 * `Retry` and interprets the 200 answer.
 *
 * The transport is an oracle per call (see `Retry`); its 200 payload is
 * the JSON body already decoded, `None` when the body does not decode as
 * the expected record. The keychain and UserDefaults are parameters.
 */
module MistralDirect {
  import opened Wrappers
  import opened Text
  import opened Utf8
  import NetworkConfig
  import opened Retry
  import opened Multipart
  import opened TranscriptionTypes
  import opened ModelLists

  /** `defaultTranscriptionModel`. */
  const DefaultTranscriptionModel := "voxtral-mini-latest"

  const TranscriptionUrl := "https://api.mistral.ai/v1/audio/transcriptions"
  const ChatUrl := "https://api.mistral.ai/v1/chat/completions"
  const ModelsUrl := "https://api.mistral.ai/v1/models"

  /**
   * `resolvedTranscriptionModel`, given the string UserDefaults holds under
   * "transcriptionModel": the stored id when it is non-empty and mentions
   * "voxtral", otherwise the default model.
   */
  function ResolvedTranscriptionModel(stored: Option<string>): string {
    if stored.Some? && stored.value != [] && Contains(stored.value, "voxtral") then stored.value
    else DefaultTranscriptionModel
  }

  /**
   * The stored id is used exactly when it mentions "voxtral" (the emptiness
   * test is implied), and whatever is used is a voxtral model.
   */
  lemma ResolvedTranscriptionModelRule(stored: Option<string>)
    ensures var model := ResolvedTranscriptionModel(stored);
      && Contains(model, "voxtral")
      && (stored.Some? && Contains(stored.value, "voxtral") ==> model == stored.value)
      && (stored.None? || !Contains(stored.value, "voxtral") ==> model == DefaultTranscriptionModel)
  {
    assert OccursAt(DefaultTranscriptionModel, "voxtral", 0);
  }

  /** Where the key can come from: the override injected at construction, and the keychain's entry. */
  datatype KeySources = KeySources(apiKeyOverride: Option<string>, keychainKey: Option<string>)

  /** The `apiKey` getter. */
  function ApiKey(sources: KeySources): Result<string, MistralError> {
    if sources.apiKeyOverride.Some? && sources.apiKeyOverride.value != [] then Success(sources.apiKeyOverride.value)
    else if sources.keychainKey.Some? && sources.keychainKey.value != [] then Success(sources.keychainKey.value)
    else Failure(MissingAPIKey)
  }

  /** No usable key in either place. */
  predicate NoKey(sources: KeySources) {
    (sources.apiKeyOverride.None? || sources.apiKeyOverride.value == [])
    && (sources.keychainKey.None? || sources.keychainKey.value == [])
  }

  /**
   * A non-empty override wins over the keychain; the keychain's key is used
   * only without one; with neither, `missingAPIKey` is thrown. A key that
   * is returned is never empty.
   */
  lemma ApiKeyRule(sources: KeySources)
    ensures sources.apiKeyOverride.Some? && sources.apiKeyOverride.value != [] ==>
      ApiKey(sources) == Success(sources.apiKeyOverride.value)
    ensures ApiKey(sources) == Failure(MissingAPIKey) <==> NoKey(sources)
    ensures ApiKey(sources).Success? ==>
      ApiKey(sources).value != [] && Some(ApiKey(sources).value) in {sources.apiKeyOverride, sources.keychainKey}
  {
  }

  /** A message of the chat request or of a chat answer. */
  datatype ChatMessage = ChatMessage(role: string, content: string)

  /** The JSON body of a chat completion request. */
  datatype ChatRequest = ChatRequest(model: string, messages: seq<ChatMessage>)

  /** A request body: none, multipart bytes, or a chat request to be JSON-encoded. */
  datatype Body = NoBody | Form(bytes: seq<byte>) | Json(chat: ChatRequest)

  /** The parts of a `URLRequest` the service sets. */
  datatype Request = Request(url: string, httpMethod: string, headers: seq<(string, string)>, body: Body)

  /** The decoded answers. */
  datatype TranscriptionResponse = TranscriptionResponse(text: string, language: Option<string>)
  datatype ChatChoice = ChatChoice(message: ChatMessage)
  datatype ChatResponse = ChatResponse(choices: seq<ChatChoice>)
  datatype ModelsResponse = ModelsResponse(data: seq<ModelEntry>)

  /**
   * What one operation did: the request it sent (`None` when it threw
   * before sending), what it returned or threw, and how many transport
   * calls it made.
   */
  datatype Exchange<T> = Exchange(request: Option<Request>, result: Result<T, Failure>, calls: nat)

  function Authorization(key: string): (string, string) {
    ("Authorization", "Bearer " + key)
  }

  /** `JSONDecoder().decode` of a 200 body: a body that does not decode throws. */
  function Decoded<T>(result: Result<Option<T>, Failure>): Result<T, Failure> {
    match result
    case Success(Some(value)) => Success(value)
    case Success(None) => Failure(Decoding)
    case Failure(e) => Failure(e)
  }

  /** The request of `transcribe`: a multipart POST with the key and the boundary. */
  function TranscribeRequest(key: string, boundary: string, model: string, language: Option<string>, filename: string, audio: seq<byte>): Request {
    Request(TranscriptionUrl, "POST",
      [Authorization(key), ("Content-Type", "multipart/form-data; boundary=" + boundary)],
      Form(Serialize(boundary, TranscriptionParts(model, language, filename, audio))))
  }

  function TranscriptionResultOf(response: TranscriptionResponse): TranscriptionResult {
    TranscriptionResult(response.text, response.language)
  }

  /**
   * `transcribe`, given the boundary UUID, the audio file's name and bytes:
   * the upload uses the `.transcription` retry settings.
   */
  function TranscribeExchange(sources: KeySources, boundary: string, model: string, language: Option<string>,
                              filename: string, audio: seq<byte>,
                              transport: nat -> Response<Option<TranscriptionResponse>>): Exchange<TranscriptionResult>
  {
    match ApiKey(sources)
    case Failure(e) => Exchange(None, Failure(Mistral(e)), 0)
    case Success(key) =>
      var trace := Run(NetworkConfig.Transcription, transport);
      var result := match Decoded(trace.result)
        case Success(response) => Success(TranscriptionResultOf(response))
        case Failure(e) => Failure(e);
      Exchange(Some(TranscribeRequest(key, boundary, model, language, filename, audio)), result, trace.calls)
  }

  /**
   * `transcribe` step by step: the key, the body appended part by part,
   * then the retry loop with its back-off delays.
   */
  method Transcribe(sources: KeySources, boundary: string, model: string, language: Option<string>,
                    filename: string, audio: seq<byte>,
                    transport: nat -> Response<Option<TranscriptionResponse>>)
    returns (exchange: Exchange<TranscriptionResult>, delays: seq<real>)
    ensures exchange == TranscribeExchange(sources, boundary, model, language, filename, audio, transport)
    ensures exchange.calls <= 3
    ensures |delays| == if exchange.calls == 0 then 0 else exchange.calls - 1
    ensures forall k :: 0 <= k < |delays| ==> delays[k] == Backoff(NetworkConfig.Transcription, k + 1)
  {
    var key := ApiKey(sources);
    if key.Failure? {
      return Exchange(None, Failure(Mistral(key.error)), 0), [];
    }
    var body := BuildTranscriptionBody(boundary, model, language, filename, audio);
    var request := Request(TranscriptionUrl, "POST",
      [Authorization(key.value), ("Content-Type", "multipart/form-data; boundary=" + boundary)], Form(body));
    var result, calls;
    result, calls, delays := PerformRequest(NetworkConfig.Transcription, transport);
    var decoded := Decoded(result);
    if decoded.Failure? {
      return Exchange(Some(request), Failure(decoded.error), calls), delays;
    }
    return Exchange(Some(request), Success(TranscriptionResultOf(decoded.value)), calls), delays;
  }

  /**
   * A transcription that returns carries the text and language of the 200
   * answer's decoded body; the request holds the multipart body and the
   * bearer key; at most three calls are made.
   */
  lemma TranscribeCharacterized(sources: KeySources, boundary: string, model: string, language: Option<string>,
                                filename: string, audio: seq<byte>,
                                transport: nat -> Response<Option<TranscriptionResponse>>)
    requires ApiKey(sources).Success?
    ensures var x := TranscribeExchange(sources, boundary, model, language, filename, audio, transport);
      var trace := Run(NetworkConfig.Transcription, transport);
      && x.request == Some(TranscribeRequest(ApiKey(sources).value, boundary, model, language, filename, audio))
      && 1 <= x.calls <= 3
      && (x.result.Success? <==> trace.result.Success? && trace.result.value.Some?)
      && (x.result.Success? ==> x.result.value == TranscriptionResult(trace.result.value.value.text, trace.result.value.value.language))
      && (trace.result.Failure? ==> x.result == Failure(trace.result.error))
      && (trace.result.Success? && trace.result.value.None? ==> x.result == Failure(Decoding))
  {
    RunCharacterized(NetworkConfig.Transcription, transport);
  }

  /** The request of `runPrompt`: a JSON POST of the system prompt and then the transcript. */
  function PromptRequest(key: string, transcript: string, systemPrompt: string, model: string): Request {
    Request(ChatUrl, "POST", [Authorization(key), ("Content-Type", "application/json")],
      Json(ChatRequest(model, [ChatMessage("system", systemPrompt), ChatMessage("user", transcript)])))
  }

  /** `decoded.choices.first?.message.content`, or `emptyResponse` when there is no choice. */
  function FirstContent(response: ChatResponse): Result<string, Failure> {
    if response.choices == [] then Failure(Mistral(EmptyResponse)) else Success(response.choices[0].message.content)
  }

  /** `runPrompt`, with the default retry settings. */
  function RunPrompt(sources: KeySources, transcript: string, systemPrompt: string, model: string,
                     transport: nat -> Response<Option<ChatResponse>>): Exchange<string>
  {
    match ApiKey(sources)
    case Failure(e) => Exchange(None, Failure(Mistral(e)), 0)
    case Success(key) =>
      var trace := Run(NetworkConfig.Default, transport);
      var result := match Decoded(trace.result)
        case Success(response) => FirstContent(response)
        case Failure(e) => Failure(e);
      Exchange(Some(PromptRequest(key, transcript, systemPrompt, model)), result, trace.calls)
  }

  /** The retry loop never throws `missingAPIKey` or `emptyResponse` itself. */
  lemma RunThrowsNeitherKeyNorEmpty<P>(config: NetworkConfig.NetworkConfiguration, transport: nat -> Response<P>)
    requires config.maxRetries >= 0
    ensures var r := Run(config, transport).result;
      r != Failure(Mistral(EmptyResponse)) && r != Failure(Mistral(MissingAPIKey))
  {
    RunCharacterized(config, transport);
  }

  /**
   * A prompt returns the first choice's content; `emptyResponse` is thrown
   * exactly when the call succeeded with an answer holding no choice.
   */
  lemma RunPromptCharacterized(sources: KeySources, transcript: string, systemPrompt: string, model: string,
                               transport: nat -> Response<Option<ChatResponse>>)
    requires ApiKey(sources).Success?
    ensures var x := RunPrompt(sources, transcript, systemPrompt, model, transport);
      var r := Run(NetworkConfig.Default, transport).result;
      && x.request == Some(PromptRequest(ApiKey(sources).value, transcript, systemPrompt, model))
      && (x.result.Success? <==> r.Success? && r.value.Some? && r.value.value.choices != [])
      && (x.result.Success? ==> x.result.value == r.value.value.choices[0].message.content)
      && (x.result == Failure(Mistral(EmptyResponse)) <==> r.Success? && r.value.Some? && r.value.value.choices == [])
      && (r.Failure? ==> x.result == Failure(r.error))
      && (r.Success? && r.value.None? ==> x.result == Failure(Decoding))
  {
    RunThrowsNeitherKeyNorEmpty(NetworkConfig.Default, transport);
  }

  /** A 200 answer with an empty `choices` list throws `emptyResponse` after that one call. */
  lemma EmptyChoicesThrowEmptyResponse(sources: KeySources, transcript: string, systemPrompt: string, model: string,
                                       transport: nat -> Response<Option<ChatResponse>>)
    requires ApiKey(sources).Success?
    requires transport(0).Http? && transport(0).status == 200 && transport(0).payload == Some(ChatResponse([]))
    ensures RunPrompt(sources, transcript, systemPrompt, model, transport).result == Failure(Mistral(EmptyResponse))
    ensures RunPrompt(sources, transcript, systemPrompt, model, transport).calls == 1
  {
    SuccessReturnsAtOnce(NetworkConfig.Default, transport);
  }

  /**
   * The prompt of the success test in MistralDirectServiceTests: the request is a POST with the bearer key
   * and a JSON content type, and the answer's first content is returned.
   */
  lemma RunPromptExample(transport: nat -> Response<Option<ChatResponse>>)
    requires transport(0).Http? && transport(0).status == 200
    requires transport(0).payload == Some(ChatResponse([ChatChoice(ChatMessage("assistant", "Summary here"))]))
    ensures var x := RunPrompt(KeySources(Some("test-key"), None), "Hello", "Summarize", "mistral-small-latest", transport);
      && x.result == Success("Summary here")
      && x.calls == 1
      && x.request.Some? && x.request.value.httpMethod == "POST"
      && ("Authorization", "Bearer test-key") in x.request.value.headers
      && ("Content-Type", "application/json") in x.request.value.headers
  {
    SuccessReturnsAtOnce(NetworkConfig.Default, transport);
    assert "Bearer " + "test-key" == "Bearer test-key";
  }

  /** The request of the three model-list calls: a GET of the models URL with the bearer key. */
  function ModelsRequest(key: string): Request {
    Request(ModelsUrl, "GET", [Authorization(key)], NoBody)
  }

  /** `listModels` (for `Chat`) and `listTranscriptionModels` (for `Transcription`). */
  function ListModelsOf(listing: Listing, sources: KeySources,
                        transport: nat -> Response<Option<ModelsResponse>>): Exchange<seq<MistralModel>>
  {
    match ApiKey(sources)
    case Failure(e) => Exchange(None, Failure(Mistral(e)), 0)
    case Success(key) =>
      var trace := Run(NetworkConfig.Default, transport);
      var result := match Decoded(trace.result)
        case Success(response) => Success(Listed(listing, response.data))
        case Failure(e) => Failure(e);
      Exchange(Some(ModelsRequest(key)), result, trace.calls)
  }

  function ListModels(sources: KeySources, transport: nat -> Response<Option<ModelsResponse>>): Exchange<seq<MistralModel>> {
    ListModelsOf(Chat, sources, transport)
  }

  function ListTranscriptionModels(sources: KeySources, transport: nat -> Response<Option<ModelsResponse>>): Exchange<seq<MistralModel>> {
    ListModelsOf(Listing.Transcription, sources, transport)
  }

  /**
   * A listing that returns holds, in strictly ascending order and once
   * each, exactly the ids of the entries its filter keeps, each as a model
   * named by its id with the listing's one capability.
   */
  lemma ListModelsCharacterized(listing: Listing, sources: KeySources, transport: nat -> Response<Option<ModelsResponse>>)
    requires ApiKey(sources).Success?
    ensures var x := ListModelsOf(listing, sources, transport);
      var r := Run(NetworkConfig.Default, transport).result;
      && x.request == Some(ModelsRequest(ApiKey(sources).value))
      && (x.result.Success? <==> r.Success? && r.value.Some?)
      && (r.Failure? ==> x.result == Failure(r.error))
      && (r.Success? && r.value.None? ==> x.result == Failure(Decoding))
      && (x.result.Success? ==>
            var models, entries := x.result.value, r.value.value.data;
            && StrictlyAscending(Ids(models))
            && (forall id :: id in Ids(models) <==> exists e :: e in entries && Keeps(listing, e) && e.id == id)
            && (forall i :: 0 <= i < |models| ==> models[i].name == models[i].id && models[i].capabilities == [Capability(listing)]))
  {
    var x := ListModelsOf(listing, sources, transport);
    var r := Run(NetworkConfig.Default, transport).result;
    if x.result.Success? {
      ListedCharacterized(listing, r.value.value.data);
    }
  }

  /** The chat listing of the catalogue in the listing test of MistralDirectServiceTests holds the two plain aliases, large before small. */
  lemma ListModelsExample(entries: seq<ModelEntry>, transport: nat -> Response<Option<ModelsResponse>>)
    requires IsExampleCatalogue(entries)
    requires transport(0).Http? && transport(0).status == 200 && transport(0).payload == Some(ModelsResponse(entries))
    ensures var x := ListModels(KeySources(Some("test-key"), None), transport);
      x.result.Success? && Ids(x.result.value) == ["mistral-large-latest", "mistral-small-latest"] && x.calls == 1
  {
    SuccessReturnsAtOnce(NetworkConfig.Default, transport);
    ChatListingExample(entries);
  }

  /** `validateAPIKey`: a 200 means valid, an `apiError` 401 means invalid, anything else is rethrown. */
  function ValidateApiKey<P>(sources: KeySources, transport: nat -> Response<P>): Exchange<bool> {
    match ApiKey(sources)
    case Failure(e) => Exchange(None, Failure(Mistral(e)), 0)
    case Success(key) =>
      var trace := Run(NetworkConfig.Default, transport);
      var result := match trace.result
        case Success(_) => Success(true)
        case Failure(Mistral(ApiError(401, _))) => Success(false)
        case Failure(e) => Failure(e);
      Exchange(Some(ModelsRequest(key)), result, trace.calls)
  }

  /**
   * The answer is `true` exactly when the loop returned, `false` exactly
   * when it threw `apiError` 401, and every other error reaches the caller
   * unchanged; the body is never decoded.
   */
  lemma ValidateApiKeyCharacterized<P>(sources: KeySources, transport: nat -> Response<P>)
    requires ApiKey(sources).Success?
    ensures var x := ValidateApiKey(sources, transport);
      var r := Run(NetworkConfig.Default, transport).result;
      && (x.result == Success(true) <==> r.Success?)
      && (x.result == Success(false) <==> r.Failure? && r.error.Mistral? && r.error.error.ApiError? && r.error.error.statusCode == 401)
      && (x.result.Failure? <==> r.Failure? && !(r.error.Mistral? && r.error.error.ApiError? && r.error.error.statusCode == 401))
      && (x.result.Failure? ==> x.result.error == r.error)
      && x.result != Failure(Decoding)
  {
    RunCharacterized(NetworkConfig.Default, transport);
  }

  /** The key-validation answers of the tests in MistralDirectServiceTests: 200, 401, and a 400 thrown after one call. */
  lemma ValidateApiKeyExamples<P>(sources: KeySources, transport: nat -> Response<P>)
    requires ApiKey(sources).Success? && transport(0).Http?
    ensures transport(0).status == 200 ==> ValidateApiKey(sources, transport) == Exchange(Some(ModelsRequest(ApiKey(sources).value)), Success(true), 1)
    ensures transport(0).status == 401 ==> ValidateApiKey(sources, transport) == Exchange(Some(ModelsRequest(ApiKey(sources).value)), Success(false), 1)
    ensures transport(0).status == 400 ==>
      ValidateApiKey(sources, transport).result == Failure(Mistral(ApiError(400, transport(0).text.GetOr(UnknownErrorText))))
      && ValidateApiKey(sources, transport).calls == 1
  {
  }

  /** Thrown `missingAPIKey` without sending a request or calling the transport. */
  predicate ThrewMissingKey<T>(x: Exchange<T>) {
    x == Exchange(None, Failure(Mistral(MissingAPIKey)), 0)
  }

  /** Without a key every operation throws `missingAPIKey` and sends nothing. */
  lemma MissingKeySendsNothing<P>(sources: KeySources, boundary: string, model: string, language: Option<string>,
                                  filename: string, audio: seq<byte>, transcript: string, systemPrompt: string,
                                  audioTransport: nat -> Response<Option<TranscriptionResponse>>,
                                  chatTransport: nat -> Response<Option<ChatResponse>>,
                                  modelsTransport: nat -> Response<Option<ModelsResponse>>,
                                  validateTransport: nat -> Response<P>)
    requires NoKey(sources)
    ensures ThrewMissingKey(TranscribeExchange(sources, boundary, model, language, filename, audio, audioTransport))
    ensures ThrewMissingKey(RunPrompt(sources, transcript, systemPrompt, model, chatTransport))
    ensures ThrewMissingKey(ListModels(sources, modelsTransport))
    ensures ThrewMissingKey(ListTranscriptionModels(sources, modelsTransport))
    ensures ThrewMissingKey(ValidateApiKey(sources, validateTransport))
  {
  }

  /**
   * With a key every operation sends one request carrying it as a bearer
   * token, and the default retry settings bound the calls to four.
   */
  lemma KeyedOperationsCallBounded<P>(sources: KeySources, transcript: string, systemPrompt: string, model: string,
                                      chatTransport: nat -> Response<Option<ChatResponse>>,
                                      modelsTransport: nat -> Response<Option<ModelsResponse>>,
                                      validateTransport: nat -> Response<P>)
    requires ApiKey(sources).Success?
    ensures var bearer := ("Authorization", "Bearer " + ApiKey(sources).value);
      var prompt := RunPrompt(sources, transcript, systemPrompt, model, chatTransport);
      var chat, voice := ListModels(sources, modelsTransport), ListTranscriptionModels(sources, modelsTransport);
      var valid := ValidateApiKey(sources, validateTransport);
      && prompt.request.Some? && bearer in prompt.request.value.headers && 1 <= prompt.calls <= 4
      && chat.request.Some? && bearer in chat.request.value.headers && 1 <= chat.calls <= 4
      && voice.request.Some? && bearer in voice.request.value.headers && 1 <= voice.calls <= 4
      && valid.request.Some? && bearer in valid.request.value.headers && 1 <= valid.calls <= 4
  {
    RunCharacterized(NetworkConfig.Default, chatTransport);
    RunCharacterized(NetworkConfig.Default, modelsTransport);
    RunCharacterized(NetworkConfig.Default, validateTransport);
  }
}
