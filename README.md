# VoxtralCore in Dafny

A Dafny model of the core of VoxtralCore, the Swift package behind a voice-memo app that records audio and sends it to the Mistral API. The package then shows the transcript and runs prompts over it. The model covers:

- **The Mistral API client** (`MistralDirectService`):
  - the closed error type and its retryability rule;
  - the bounded retry loop `performRequest`, with its capped exponential back-off;
  - the set of transient URL errors;
  - where the API key comes from, and which transcription model is used;
  - the `multipart/form-data` upload body (section 4 of RFC 7578), appended piece by piece;
  - the five calls: transcribe, run a prompt, list chat models, list transcription models, validate the key.
- **The records of the transcription protocol**, and a model's display name.
- **A memo**: its status, its list title and its formatted duration.
- **The fixed pricing table** and its lookup.
- **The two network presets.**

The URL session is an oracle `transport: nat -> Response<P>`: its answer to the k-th call. So the retry loop is a function of the answers it gets, and every call is counted. JSON bodies appear already decoded (`None` when a 200 body does not decode). The keychain entry, the UserDefaults entry, the multipart boundary and the audio file's name and bytes are parameters.

Modules:

| module | file | covers |
|---|---|---|
| `Wrappers` | `wrappers.dfy` | Swift optionals and thrown errors as values |
| `Text` | `text.dfy` | the string operations the core uses (`hasPrefix`, `contains`, `prefix(while:)`, `lastIndex(of:)`, `split`, `joined`, `replacingOccurrences`, `<`, decimal formatting) |
| `Utf8` | `utf8.dfy` | `String.data(using: .utf8)` |
| `NetworkConfig` | `network_configuration.dfy` | `NetworkConfiguration` and its presets |
| `Retry` | `retry.dfy` | `MistralError`, `isRetryable`, `isTransientURLError`, `performRequest` |
| `Multipart` | `multipart.dfy` | the `Data` helpers and the upload body of `transcribe` |
| `TranscriptionTypes` | `transcription_types.dfy` | `TranscriptionResult`, `MistralModel`, `displayName` |
| `ModelLists` | `model_lists.dfy` | the filter, de-duplication and sort of the two model listings |
| `MistralDirect` | `mistral_direct.dfy` | `apiKey`, `resolvedTranscriptionModel` and the five calls |
| `Memos` | `memo.dfy` | `MemoStatus`, `displayTitle`, `formattedDuration` |
| `Pricing` | `model_pricing.dfy` | the pricing table and `pricingFor` |

Two details of the source the model makes explicit:

- **Only the retry settings are used.** `performRequest` reads `maxRetries` and `baseRetryDelay` from its configuration, and nothing else (`Retry.OnlyRetrySettingsMatter`). The session is built once with the `.default` timeouts (MistralDirectService.swift:29-33). So the `.transcription` preset passed by `transcribe` changes only the retry count and the back-off, never a timeout.
- **The trailing `throw lastError` is never reached.** Every path through the loop returns or throws on the last attempt (`Retry.PersistentRetryableStatusExhaustsBudget`, `Retry.RunCharacterized`).

A transcript that starts with a newline gets an empty title, not the "New Memo" placeholder. The test for an empty transcript runs before the first line is taken (`Memos.LeadingNewlineGivesEmptyTitle`).

## Model

| member | source | states |
|---|---|---|
| Retry.IsTransientUrlError | VoxtralCore/Sources/VoxtralCore/Services/MistralDirectService.swift:100-107 | Which URL errors are retried; `Retry.TransientUrlErrorCodes` states the set. |
| Retry.TransientUrlErrorCodes | VoxtralCore/Sources/VoxtralCore/Services/MistralDirectService.swift:100-107 | The transient URL errors are exactly the Foundation codes -1001 (timed out), -1005 (connection lost) and -1009 (not connected). Others, such as -999 and -1003, are not retried. |
| Retry.RunFrom | VoxtralCore/Sources/VoxtralCore/Services/MistralDirectService.swift:58-95 | The loop from one attempt on, as a function of the transport's answers; characterised by `Retry.RunFromCharacterized`. |
| Retry.Run | VoxtralCore/Sources/VoxtralCore/Services/MistralDirectService.swift:55-98 | `performRequest`'s result and call count; characterised by `Retry.RunCharacterized`, and `Retry.PerformRequest` is proved equal to it. |
| Retry.Backoff | VoxtralCore/Sources/VoxtralCore/Services/MistralDirectService.swift:59-60 | The delay before attempt k; bounded by `Retry.BackoffBounded`, doubling by `Retry.BackoffDoubles`. |
| Retry.RetryableStatuses | VoxtralCore/Sources/VoxtralCore/Services/MistralDirectService.swift:287-294 | An error is retryable exactly when it is `apiError` with status 429 or 500-504. `missingAPIKey`, `invalidResponse` and `emptyResponse` never are. |
| Retry.RunCharacterized | VoxtralCore/Sources/VoxtralCore/Services/MistralDirectService.swift:55-98 | The loop makes between 1 and maxRetries + 1 calls. Every answer before the last was a retried one (retryable status or transient URL error). The last answer is not retried unless the budget is spent, and the caller receives what that last answer means. |
| Retry.RunFromCharacterized | VoxtralCore/Sources/VoxtralCore/Services/MistralDirectService.swift:58-95 | The same statement from any attempt on: calls made, retried answers before the last, and the outcome of the last. |
| Retry.PerformRequest | VoxtralCore/Sources/VoxtralCore/Services/MistralDirectService.swift:55-98 | The `for attempt in 0...maxRetries` loop returns exactly the result and call count of `Run`, makes 1 to maxRetries + 1 calls, and sleeps `Backoff(config, k)` before attempt k ≥ 1 and never before attempt 0. |
| Retry.FinalFirstAnswerEndsLoop | VoxtralCore/Sources/VoxtralCore/Services/MistralDirectService.swift:67-95 | An answer that is not retried ends the loop after one call, with that answer's outcome. |
| Retry.SuccessReturnsAtOnce | VoxtralCore/Sources/VoxtralCore/Services/MistralDirectService.swift:73-84 | A 200 returns its payload after one call. |
| Retry.NonRetryableStatusFailsAtOnce | VoxtralCore/Sources/VoxtralCore/Services/MistralDirectService.swift:73-81 | A status that is neither 200 nor retryable (e.g. 400) is thrown as `apiError(status, body)` after one call. An undecodable body reads "Unknown error". |
| Retry.NonHttpFailsAtOnce | VoxtralCore/Sources/VoxtralCore/Services/MistralDirectService.swift:69-71 | A response that is not HTTP throws `invalidResponse` after one call. |
| Retry.OtherUrlErrorPropagatesAtOnce | VoxtralCore/Sources/VoxtralCore/Services/MistralDirectService.swift:88-107 | A URL error outside the transient set propagates after one call. |
| Retry.PersistentRetryableStatusExhaustsBudget | VoxtralCore/Sources/VoxtralCore/Services/MistralDirectService.swift:58-97 | A server that always answers the same retryable status is called exactly maxRetries + 1 times, and that `apiError` is thrown. |
| Retry.PersistentTransientUrlErrorRethrown | VoxtralCore/Sources/VoxtralCore/Services/MistralDirectService.swift:88-107 | A transient URL error on every attempt is retried, then rethrown after maxRetries + 1 calls. |
| Retry.OnlyRetrySettingsMatter | VoxtralCore/Sources/VoxtralCore/Services/MistralDirectService.swift:55-60 | Two configurations that agree on maxRetries and baseRetryDelay give the same run and the same delays. The timeouts play no part. |
| Retry.RunFromReadsOnlyMaxRetries | VoxtralCore/Sources/VoxtralCore/Services/MistralDirectService.swift:58-95 | The calls and the outcome depend on the configuration only through maxRetries. |
| Retry.BackoffBounded | VoxtralCore/Sources/VoxtralCore/Services/MistralDirectService.swift:59-60 | The delay before a retry never exceeds 30 s. For a base delay between 0 and 30 it is at least the base. |
| Retry.BackoffDoubles | VoxtralCore/Sources/VoxtralCore/Services/MistralDirectService.swift:59-60 | Each delay is twice the previous one, capped at 30 s. |
| Retry.PresetBackoffs | VoxtralCore/Sources/VoxtralCore/Services/MistralDirectService.swift:59-60 | With `.default` the delays are 1, 2, 4 s, and the cap is reached by the sixth attempt. With `.transcription` they are 2 and 4 s. |
| NetworkConfig.PresetValues | VoxtralCore/Sources/VoxtralCore/Services/NetworkConfiguration.swift:21-33 | `.default` is 30 / 300 / 3 / 1 and `.transcription` is 60 / 600 / 2 / 2. |
| NetworkConfig.PresetsAdmitRetryLoop | VoxtralCore/Sources/VoxtralCore/Services/NetworkConfiguration.swift:21-33 | Both presets have maxRetries ≥ 0, which is the retry loop's precondition. |
| NetworkConfig.TranscriptionPresetSuitsLargeUploads | VoxtralCore/Sources/VoxtralCore/Services/NetworkConfiguration.swift:21-33 | The upload preset has longer timeouts, fewer retries and a longer base delay than the default. |
| Utf8.DecodeEncodeChar | VoxtralCore/Sources/VoxtralCore/Services/MistralDirectService.swift:312-326 | The UTF-8 bytes of a character decode back to its code point. |
| Utf8.Encode | VoxtralCore/Sources/VoxtralCore/Services/MistralDirectService.swift:312-326 | `data(using: .utf8)`: the UTF-8 bytes of a text; see `Utf8.DecodeEncodeChar`, `Utf8.EncodeAppend` and `Utf8.EncodeAscii`. |
| Utf8.EncodeAppend | VoxtralCore/Sources/VoxtralCore/Services/MistralDirectService.swift:312-326 | Encoding distributes over concatenation, so appending encoded pieces is encoding the whole text. |
| Utf8.EncodeAscii | VoxtralCore/Sources/VoxtralCore/Services/MistralDirectService.swift:312-326 | An ASCII text is encoded one byte per character. |
| Multipart.TranscriptionParts | VoxtralCore/Sources/VoxtralCore/Services/MistralDirectService.swift:123-133 | The parts of an upload; see `Multipart.TranscriptionPartsLayout`. |
| Multipart.Serialize | VoxtralCore/Sources/VoxtralCore/Services/MistralDirectService.swift:116-136 | The bytes of a body; see `Multipart.BuildTranscriptionBody` and `Multipart.TranscriptionBodyFraming`. |
| Multipart.FormBody.AppendMultipart | VoxtralCore/Sources/VoxtralCore/Services/MistralDirectService.swift:313-317 | Appends exactly one text part: delimiter line, Content-Disposition with the name, blank line, value, CRLF. |
| Multipart.FormBody.AppendMultipartFile | VoxtralCore/Sources/VoxtralCore/Services/MistralDirectService.swift:319-325 | Appends exactly one file part: delimiter line, disposition with name and filename, Content-Type, blank line, the bytes unchanged, CRLF. |
| Multipart.TextPartPieces | VoxtralCore/Sources/VoxtralCore/Services/MistralDirectService.swift:313-317 | A text part's bytes are the three lines `appendMultipart` appends. |
| Multipart.FilePartPieces | VoxtralCore/Sources/VoxtralCore/Services/MistralDirectService.swift:319-325 | A file part's bytes are the five pieces `appendMultipartFile` appends. |
| Multipart.BuildTranscriptionBody | VoxtralCore/Sources/VoxtralCore/Services/MistralDirectService.swift:116-136 | The body `transcribe` builds by appending is the serialization of its parts, followed by the closing `--boundary--` line. |
| Multipart.TranscriptionPartsLayout | VoxtralCore/Sources/VoxtralCore/Services/MistralDirectService.swift:123-133 | The parts are the model field first and the audio file (audio/mp4) last. The language field sits between them exactly when a language is sent. Only the last part is a file. |
| Multipart.AutoDetectionSendsNoLanguage | VoxtralCore/Sources/VoxtralCore/Services/MistralDirectService.swift:126-129 | No language, an empty language and "auto" all leave the language field out. |
| Multipart.PartsBytesConcat | VoxtralCore/Sources/VoxtralCore/Services/MistralDirectService.swift:123-133 | Serializing two lists of parts one after the other is serializing the joined list. |
| Multipart.TranscriptionBodyFraming | VoxtralCore/Sources/VoxtralCore/Services/MistralDirectService.swift:123-136 | The body starts with the model part and ends with the audio bytes unchanged, a CRLF and the closing delimiter. |
| TranscriptionTypes.DisplayName | VoxtralCore/Sources/VoxtralCore/Services/TranscriptionService.swift:25-39 | The loop that peels trailing numeric segments returns `DisplayNameOf(id)`: the id split at '-'; the longest run of all-digit segments at its end, joined by '.' after " v"; the rest capitalised and joined by spaces. |
| TranscriptionTypes.VersionStart | VoxtralCore/Sources/VoxtralCore/Services/TranscriptionService.swift:29-32 | Segments from the version start on are numeric, and the one before it is not. |
| TranscriptionTypes.VersionIsMaximalNumericSuffix | VoxtralCore/Sources/VoxtralCore/Services/TranscriptionService.swift:29-32 | The version is the longest numeric run at the end, and a numeric segment followed by a word stays in the base. |
| TranscriptionTypes.VersionShownIffTrailingDigits | VoxtralCore/Sources/VoxtralCore/Services/TranscriptionService.swift:30-38 | A version is shown exactly when the last segment is all digits. |
| TranscriptionTypes.NoVersionWithoutTrailingDigits | VoxtralCore/Sources/VoxtralCore/Services/TranscriptionService.swift:34-37 | Without trailing digits the name is just the capitalised segments joined by spaces. |
| TranscriptionTypes.Capitalized | VoxtralCore/Sources/VoxtralCore/Services/TranscriptionService.swift:34 | Every segment keeps its place and gets only its first letter upper-cased. |
| TranscriptionTypes.BaseWordsRecoverSegments | VoxtralCore/Sources/VoxtralCore/Services/TranscriptionService.swift:26-34 | For an id without spaces, the base name splits at its spaces back into the capitalised segments. So no empty word appears, even with doubled or leading dashes. |
| TranscriptionTypes.DisplayNameOfSegments | VoxtralCore/Sources/VoxtralCore/Services/TranscriptionService.swift:25-39 | An id joined from base segments and numeric version segments is shown as that base and that version. |
| TranscriptionTypes.DisplayNameVersionedExample | VoxtralCore/Sources/VoxtralCore/Services/TranscriptionService.swift:25-39 | The display name of the id "voxtral-mini-transcribe-26-02" is "Voxtral Mini Transcribe v26.02", and that of "voxtral-mini-transcribe-25-07" is "Voxtral Mini Transcribe v25.07". |
| TranscriptionTypes.DisplayNameLatestExample | VoxtralCore/Sources/VoxtralCore/Services/TranscriptionService.swift:25-39 | The display name of the id "mistral-small-latest" is "Mistral Small Latest". |
| TranscriptionTypes.DisplayNameSingleWordExample | VoxtralCore/Sources/VoxtralCore/Services/TranscriptionService.swift:25-39 | The display name of the id "codestral" is "Codestral". |
| ModelLists.Keeps | VoxtralCore/Sources/VoxtralCore/Services/MistralDirectService.swift:184-214 | The two filters: chat-capable "-latest" ids without pixtral, vibe, voxtral, embed or moderation; voxtral ids without realtime or small. |
| ModelLists.Listed | VoxtralCore/Sources/VoxtralCore/Services/MistralDirectService.swift:184-216 | Filter, map, de-duplicate and sort; characterised by `ModelLists.ListedCharacterized`. |
| ModelLists.KeptIds | VoxtralCore/Sources/VoxtralCore/Services/MistralDirectService.swift:184-194 | An id is kept exactly when some entry with that id passes the listing's filter. |
| ModelLists.Insert | VoxtralCore/Sources/VoxtralCore/Services/MistralDirectService.swift:195-196 | Inserting into a strictly ascending list keeps it strictly ascending and adds exactly the new element. |
| ModelLists.SortedUnique | VoxtralCore/Sources/VoxtralCore/Services/MistralDirectService.swift:195-196 | De-duplication and sorting give a strictly ascending list of exactly the same elements. |
| ModelLists.AscendingDeterminedByElements | VoxtralCore/Sources/VoxtralCore/Services/MistralDirectService.swift:195-196 | Two strictly ascending lists with the same elements are equal. |
| ModelLists.ListedCharacterized | VoxtralCore/Sources/VoxtralCore/Services/MistralDirectService.swift:176-218 | A listing is strictly ascending. It holds exactly the ids of the entries the filter keeps, each named by its id and carrying the listing's one capability. |
| ModelLists.ListedIdsUnique | VoxtralCore/Sources/VoxtralCore/Services/MistralDirectService.swift:195-196 | No id is listed twice. |
| ModelLists.ListedIgnoresOrderAndRepeats | VoxtralCore/Sources/VoxtralCore/Services/MistralDirectService.swift:195-196 | The listing depends only on which entries the catalogue holds, not on their order or repetitions. |
| ModelLists.ExampleEntriesFiltered | VoxtralCore/Sources/VoxtralCore/Services/MistralDirectService.swift:185-193 | mistral-small-latest and mistral-large-latest pass the chat filter. pixtral-large-latest, voxtral-mini-latest (chat capability false) and mistral-embed-latest do not. |
| ModelLists.ChatListingExample | VoxtralCore/Sources/VoxtralCore/Services/MistralDirectService.swift:176-197 | The five-entry catalogue of the listing test in MistralDirectServiceTests lists exactly mistral-large-latest then mistral-small-latest. |
| MistralDirect.ApiKey | VoxtralCore/Sources/VoxtralCore/Services/MistralDirectService.swift:43-51 | The `apiKey` getter; characterised by `MistralDirect.ApiKeyRule`. |
| MistralDirect.ResolvedTranscriptionModel | VoxtralCore/Sources/VoxtralCore/Services/MistralDirectService.swift:13-20 | The model id sent with an upload; characterised by `MistralDirect.ResolvedTranscriptionModelRule`. |
| MistralDirect.TranscribeExchange | VoxtralCore/Sources/VoxtralCore/Services/MistralDirectService.swift:111-144 | `transcribe` as a function; characterised by `MistralDirect.TranscribeCharacterized`, and `MistralDirect.Transcribe` is proved equal to it. |
| MistralDirect.RunPrompt | VoxtralCore/Sources/VoxtralCore/Services/MistralDirectService.swift:148-172 | `runPrompt`; characterised by `MistralDirect.RunPromptCharacterized`. |
| MistralDirect.ListModelsOf | VoxtralCore/Sources/VoxtralCore/Services/MistralDirectService.swift:176-218 | The shared shape of the two listings; characterised by `MistralDirect.ListModelsCharacterized`. |
| MistralDirect.ListModels | VoxtralCore/Sources/VoxtralCore/Services/MistralDirectService.swift:176-197 | `listModels`: the chat listing. |
| MistralDirect.ListTranscriptionModels | VoxtralCore/Sources/VoxtralCore/Services/MistralDirectService.swift:201-218 | `listTranscriptionModels`: the transcription listing. |
| MistralDirect.ValidateApiKey | VoxtralCore/Sources/VoxtralCore/Services/MistralDirectService.swift:222-236 | `validateAPIKey`; characterised by `MistralDirect.ValidateApiKeyCharacterized`. |
| MistralDirect.ApiKeyRule | VoxtralCore/Sources/VoxtralCore/Services/MistralDirectService.swift:43-51 | A non-empty override wins. Otherwise the keychain's non-empty key is used. `missingAPIKey` is thrown exactly when neither holds a non-empty key, and a returned key is never empty. |
| MistralDirect.ResolvedTranscriptionModelRule | VoxtralCore/Sources/VoxtralCore/Services/MistralDirectService.swift:13-20 | The stored id is used exactly when it contains "voxtral" (the emptiness test is implied). Otherwise voxtral-mini-latest is used, so the result always contains "voxtral". |
| MistralDirect.MissingKeySendsNothing | VoxtralCore/Sources/VoxtralCore/Services/MistralDirectService.swift:43-51 | Without a key, all five calls throw `missingAPIKey` before sending any request, with zero transport calls. |
| MistralDirect.KeyedOperationsCallBounded | VoxtralCore/Sources/VoxtralCore/Services/MistralDirectService.swift:148-236 | With a key, the prompt, both listings and the validation each send a request carrying `Bearer <key>`, and each makes 1 to 4 transport calls under the default settings. |
| MistralDirect.Transcribe | VoxtralCore/Sources/VoxtralCore/Services/MistralDirectService.swift:111-144 | The upload, done step by step, gives `TranscribeExchange`. At most 3 calls are made, and the k-th retry waits the `.transcription` back-off. |
| MistralDirect.TranscribeCharacterized | VoxtralCore/Sources/VoxtralCore/Services/MistralDirectService.swift:111-144 | The request is a multipart POST with the bearer key and the serialized parts. The result is the decoded text and language exactly when the retry loop returned a body that decodes. An error of the retry loop reaches the caller unchanged, and a 200 body that does not decode throws the decoding error. 1 to 3 calls are made. |
| MistralDirect.RunThrowsNeitherKeyNorEmpty | VoxtralCore/Sources/VoxtralCore/Services/MistralDirectService.swift:55-98 | The retry loop never throws `missingAPIKey` or `emptyResponse`. |
| MistralDirect.RunPromptCharacterized | VoxtralCore/Sources/VoxtralCore/Services/MistralDirectService.swift:148-172 | The request is the JSON POST of the system prompt and then the transcript, with the bearer key. A prompt returns the first choice's content exactly when the call returned a decodable answer with a choice. `emptyResponse` is thrown exactly when that answer has no choice. An error of the retry loop reaches the caller unchanged, and an undecodable 200 body throws the decoding error. |
| MistralDirect.EmptyChoicesThrowEmptyResponse | VoxtralCore/Sources/VoxtralCore/Services/MistralDirectService.swift:166-170 | A 200 answer with no choices throws `emptyResponse` after that single call. |
| MistralDirect.RunPromptExample | VoxtralCore/Sources/VoxtralCore/Services/MistralDirectService.swift:148-172 | The prompt of the success test in MistralDirectServiceTests is a POST with "Bearer test-key" and "application/json", and returns "Summary here" after one call. |
| MistralDirect.ListModelsCharacterized | VoxtralCore/Sources/VoxtralCore/Services/MistralDirectService.swift:176-218 | Both listings send a GET of the models URL with the key. When they return, the result is strictly ascending and holds exactly the ids the filter keeps, named by their ids, with the listing's capability. An error of the retry loop reaches the caller unchanged, and an undecodable 200 body throws the decoding error. |
| MistralDirect.ListModelsExample | VoxtralCore/Sources/VoxtralCore/Services/MistralDirectService.swift:176-197 | The catalogue of the listing test in MistralDirectServiceTests, answered with 200, lists mistral-large-latest and mistral-small-latest after one call. |
| MistralDirect.ValidateApiKeyCharacterized | VoxtralCore/Sources/VoxtralCore/Services/MistralDirectService.swift:222-236 | The answer is true exactly when the loop returned, and false exactly when it threw `apiError` 401. Every other error reaches the caller unchanged, and the body is never decoded. |
| MistralDirect.ValidateApiKeyExamples | VoxtralCore/Sources/VoxtralCore/Services/MistralDirectService.swift:222-236 | A first answer of 200 gives true after one call, 401 gives false after one call, and 400 is thrown as `apiError` after one call. |
| Memos.RawValue | VoxtralCore/Sources/VoxtralCore/Models/Memo.swift:4-6 | The raw value of each status; see `Memos.RawValueRoundTrip`. |
| Memos.StatusFromRawValue | VoxtralCore/Sources/VoxtralCore/Models/Memo.swift:4-6 | `MemoStatus(rawValue:)`; see `Memos.RawValueRoundTrip`. |
| Memos.DisplayTitle | VoxtralCore/Sources/VoxtralCore/Models/Memo.swift:43-54 | `displayTitle`; characterised by the title lemmas below. |
| Memos.WholeSeconds | VoxtralCore/Sources/VoxtralCore/Models/Memo.swift:57-58 | `Int(duration)`; see `Memos.WholeSecondsTruncates`. |
| Memos.Quotient | VoxtralCore/Sources/VoxtralCore/Models/Memo.swift:57 | Swift's integer `/`, truncating toward zero; see `Memos.MinutesAndSeconds`. |
| Memos.Remainder | VoxtralCore/Sources/VoxtralCore/Models/Memo.swift:58 | Swift's integer `%`, whose sign follows the dividend; see `Memos.MinutesAndSeconds`. |
| Memos.FormattedDuration | VoxtralCore/Sources/VoxtralCore/Models/Memo.swift:56-60 | `formattedDuration`; see `Memos.MinutesAndSeconds` and `Memos.FormattedDurationOfParts`. |
| Memos.RawValueRoundTrip | VoxtralCore/Sources/VoxtralCore/Models/Memo.swift:4-6 | A status read back from its raw value is itself, and no other raw value reads back as it. |
| Memos.MissingTranscriptGivesPlaceholder | VoxtralCore/Sources/VoxtralCore/Models/Memo.swift:43-53 | No transcript, or an empty one, gives "New Memo". |
| Memos.TitleHasNoNewline | VoxtralCore/Sources/VoxtralCore/Models/Memo.swift:45 | The title never contains a newline. |
| Memos.ShortFirstLineIsTitle | VoxtralCore/Sources/VoxtralCore/Models/Memo.swift:45-46 | A first line of at most 60 characters is the title, unchanged. |
| Memos.LeadingNewlineGivesEmptyTitle | VoxtralCore/Sources/VoxtralCore/Models/Memo.swift:44-46 | A non-empty transcript that starts with a newline gives an empty title. |
| Memos.LongFirstLineIsTruncated | VoxtralCore/Sources/VoxtralCore/Models/Memo.swift:47-51 | A longer first line gives a title of at most 63 characters that ends with "...". Without a space in the first 60 characters the title is all 60 plus "...". Otherwise it is the text before the last of those spaces, plus "...". |
| Memos.WholeSecondsTruncates | VoxtralCore/Sources/VoxtralCore/Models/Memo.swift:57-58 | `Int(duration)` is within one second of the duration, on the side of zero. |
| Memos.MinutesAndSeconds | VoxtralCore/Sources/VoxtralCore/Models/Memo.swift:56-60 | 60·minutes + seconds is the whole seconds. For a non-negative duration 0 ≤ seconds < 60, and for a negative one both parts are ≤ 0 and the seconds are above -60. |
| Memos.FormattedDurationOfParts | VoxtralCore/Sources/VoxtralCore/Models/Memo.swift:56-60 | A duration of 60·m + s whole seconds (s < 60) reads "<m>Min. <s>Sec." in decimal. |
| Memos.FormattedDurationExample | VoxtralCore/Sources/VoxtralCore/Models/Memo.swift:56-60 | 125 s reads "2Min. 5Sec.". |
| Memos.FormattedDurationZeroExample | VoxtralCore/Sources/VoxtralCore/Models/Memo.swift:56-60 | 0 s reads "0Min. 0Sec.". |
| Memos.DisplayTitleShortExample | VoxtralCore/Sources/VoxtralCore/Models/Memo.swift:43-46 | "Hello world" is its own title. |
| Memos.DisplayTitleMultilineExample | VoxtralCore/Sources/VoxtralCore/Models/Memo.swift:43-46 | A three-line transcript is titled by its first line. |
| Text.ReplaceAll | VoxtralCore/Sources/VoxtralCore/Services/ModelPricingService.swift:38 | `replacingOccurrences(of:with:)`, left to right and without overlap; see `Pricing.ReplaceAllMatchHere`, `Pricing.ReplaceAllNoMatchHere`, `Text.ReplaceAllSkips` and `Text.ReplaceAllShort`. |
| Pricing.PricingFor | VoxtralCore/Sources/VoxtralCore/Services/ModelPricingService.swift:35-39 | `pricingFor`; characterised by `Pricing.PricingForCharacterized`. |
| Pricing.TableKeyedByModelId | VoxtralCore/Sources/VoxtralCore/Services/ModelPricingService.swift:22-28 | Every table entry's modelId is its key. |
| Pricing.ExactKeyWins | VoxtralCore/Sources/VoxtralCore/Services/ModelPricingService.swift:37 | An id that is a key gets that key's entry. |
| Pricing.FirstPrefixMatch | VoxtralCore/Sources/VoxtralCore/Services/ModelPricingService.swift:38 | The search returns the first key, in iteration order, whose stripped form is a prefix of the id, or none exactly when there is no such key. |
| Pricing.PricingForCharacterized | VoxtralCore/Sources/VoxtralCore/Services/ModelPricingService.swift:35-39 | A result is always a table entry under its own id. For an id that is not a key, there is a result exactly when some key with "-latest" removed is a prefix of the id, and the result's key is such a key. |
| Pricing.StrippedKeys | VoxtralCore/Sources/VoxtralCore/Services/ModelPricingService.swift:22-28 | Removing "-latest" from the five keys gives mistral-large, mistral-small, pixtral-large, open-mistral-nemo and ministral-8b. |
| Pricing.StrippedKeysIncomparable | VoxtralCore/Sources/VoxtralCore/Services/ModelPricingService.swift:22-28 | No stripped key is a prefix of another. |
| Pricing.PrefixMatchUnique | VoxtralCore/Sources/VoxtralCore/Services/ModelPricingService.swift:38 | At most one key's stripped form is a prefix of any id. |
| Pricing.PricingIndependentOfOrder | VoxtralCore/Sources/VoxtralCore/Services/ModelPricingService.swift:38 | For this table the dictionary's iteration order does not change the answer. |
| Pricing.ExactMatchExample | VoxtralCore/Sources/VoxtralCore/Services/ModelPricingService.swift:37 | mistral-small-latest gets (0.1, 0.3). |
| Pricing.VersionedIdExample | VoxtralCore/Sources/VoxtralCore/Services/ModelPricingService.swift:38 | mistral-small-2501 gets the mistral-small-latest entry. |
| Pricing.UnknownIdExample | VoxtralCore/Sources/VoxtralCore/Services/ModelPricingService.swift:35-39 | nonexistent-model gets no price. |
| Text.SplitJoin | VoxtralCore/Sources/VoxtralCore/Services/TranscriptionService.swift:26 | Splitting undoes joining for non-empty pieces free of the separator. |
| Text.JoinSplit | VoxtralCore/Sources/VoxtralCore/Services/TranscriptionService.swift:26 | Joining undoes splitting for a text with no empty run between separators. |
| Text.Split | VoxtralCore/Sources/VoxtralCore/Services/TranscriptionService.swift:26 | `split` drops empty pieces, and no piece contains the separator. |
| Text.TakeUntil | VoxtralCore/Sources/VoxtralCore/Models/Memo.swift:45 | `prefix(while:)` gives a prefix free of the character that stops at its first occurrence. |
| Text.LastIndexOf | VoxtralCore/Sources/VoxtralCore/Models/Memo.swift:48 | `lastIndex(of:)` gives a position holding the character with none after it, or none when the character is absent. |
| Text.LessIsStrictTotalOrder | VoxtralCore/Sources/VoxtralCore/Services/MistralDirectService.swift:196 | The order the listings are sorted by is irreflexive, transitive and total. |
| Text.NaturalStringRoundTrip | VoxtralCore/Sources/VoxtralCore/Models/Memo.swift:59 | The decimal digits of a number read back as that number. |

## Left out

- Keychain, UserDefaults, URLSession, the JSON encoder and decoder, UUID generation and reading the audio file are outside calls. The key sources, the stored model id, the transport's answers, the decoded bodies, the boundary and the audio bytes are parameters. A failure to read the audio file, or to encode the chat request, is not modelled.
- Sleeping and cancellation: the delays are recorded, not waited. A cancelled `Task.sleep`, and the concurrency around it, are not modelled.
- Retry.PerformRequest: requires maxRetries ≥ 0. The Swift range `0...maxRetries` traps for a negative value, and both presets satisfy the bound.
- Swift's `Character` is a grapheme cluster, while the model's `char` is a Unicode scalar. So "\r\n" counts as two characters here, and lengths such as the 60-character title limit are counted in scalars.
- Memos.DisplayTitle: in Swift "\r\n" is one `Character`, and it is not equal to "\n". So `prefix(while:)` runs past a CRLF line break: Swift titles "Hello\r\nWorld" as "Hello\r\nWorld", while the model gives "Hello\r". `Memos.TitleHasNoNewline` holds of the model, not of Swift, for CRLF transcripts.
- TranscriptionTypes.DisplayName: a '-' followed by a combining mark forms one `Character` in Swift, so `split(separator: "-")` does not split there, while the model splits at every '-' scalar.
- TranscriptionTypes.DisplayName: `isNumber` and `uppercased()` are restricted to ASCII. Non-ASCII digits and letters are not recognised, and not case-mapped.
- Text.LessIsStrictTotalOrder: Swift's `String <` is modelled as the lexicographic order of code points, without Unicode canonical equivalence.
- Pricing.PricingForCharacterized: the dictionary's iteration order is a parameter, because Swift does not specify it. The answer is proved the same for every order of this table.
- `ModelPricing.estimatedCostPerMemo` (floating point and `String(format:)` rounding) is not modelled, nor is `transcriptionCostPerMinute`, the constant only it uses.
- Swift's `TimeInterval` and `Double` (the timeouts, `baseRetryDelay`, a memo's `duration` and the prices) are modelled as exact `real` numbers. Rounding is not modelled. For both presets the back-off values (1, 2 and 4 s, doubling up to the 30 s cap) are whole numbers, which binary floating point holds exactly, so there they agree with Swift.
- Memo's identity, creation date, transformations, audio-file URL and `formattedDate` are persistence or formatting glue and are not modelled. `Int(duration)` traps when the duration is outside the range of `Int`, which is not modelled.
- `MistralError.errorDescription` is user-facing text and is not modelled.
- The 93-character long-title example is covered only by the general lemma `Memos.LongFirstLineIsTruncated`, not by a concrete instance.
