# DressGenius core rules, modelled in Dafny

DressGenius is an outfit assistant. A Laravel back end sends a photo of an
outfit to Gemini. It scores the outfit and stores the scan with the garments
detected in it. It keeps a ten-turn chat about the outfit and a per-user
closet of items. A React front end shows the closet and the user's AI
preference sliders. This project models the rules inside that plumbing and
proves what they promise.

- `Outcomes`: Option and Result. `Failure(message)` stands for a thrown `RuntimeException`.
- `Text`: the string primitives both sides use. These are the three whitespace classes (PHP `trim`, PCRE `\s`, ECMAScript), trimming, ASCII case mapping, substring search, whitespace collapsing, `explode` and decimal rendering.
- `PhpArray`: decoded JSON values as PHP sees them, with ordered arrays, lookup, key assignment, casts, `array_filter` and `data_get`.
- `OutfitAnalysis`: the scoring heuristic of `OutfitAnalysisService::analyze`. It starts from 70, applies fixed adjustments, clamps the score, and pairs each issue with a suggestion.
- `ModelFallback`: `buildModelFallbackList`. The list holds the configured names, then the fixed fallbacks, trimmed and without a `models/` prefix, with no blanks and no repeats.
- `JsonText`: `extractJson` (fence stripping and the outer brace span) and `repairJson` (trailing commas dropped, missing closers appended).
- `VisionPayload`: `normalizeVisionPayload`.
- `GeminiCall`, `GeminiVision`, `GeminiChat`: the request loop over the fallback models. A 200 stops it, a 404 moves on, and anything else fails. Then the reply text is read and decoded.
- `RetryAfter`: `parseRetryAfterSeconds`, with its two patterns as hand-written matchers and exact decimal ceilings. Also the chat controller's own looser reading.
- `AnalysisProcess`: the audit record. It is opened `processing` and closed either `failed` with the mapped status or `completed` with its link. The module also holds the error-to-status mapping.
- `DetectedItems`: `persistDetectedItems` over a table whose auto-increment counter follows its rows.
- `ScanStore`: `OutfitScanController::store`.
- `ChatSession`: `OutfitChatController::analyze` and `storeMessage`. This covers the turn limit, the failed-message retry, and the twelve-message context window.
- `Wardrobe`: `WardrobeItemController` with its canonical key, `store` (first-or-create per user and key), `update` and `destroy`. A per-user unique key is kept as a table invariant.
- `AiPreferences`: `AIPreferencesController::update`. It whitelists the keys, keeps only numeric values, truncates and clamps them, and replaces the stored map.
- `PreferencesPage`: `AIPreferencesPage.jsx`. This covers `clamp01`, `loadPrefs`, the preset dropdown's thresholds and labels, the arrow keys and dragging.
- `WardrobePage`: `WardrobePage.jsx`. This covers `sentenceCase`, `colorToCss`, `pickIcon`, the grouping by category, the overview and the delete and rename flows.

Code that updates state in place is modelled as classes over sequence fields. This covers the controllers' tables, the chat session rows and the two pages' state. Their methods are proved against pure functions that state the whole outcome of a request. Pure code is modelled as functions and lemmas. The HTTP call to Gemini is a function parameter `post` from model name to response. `json_decode` is a parameter `decode`. The AI reply in the chat is a parameter `ai` from the context to a reply or a thrown message.

## Model

| member | source | states |
|---|---|---|
| PhpArray.Get | backend/app/Services/GeminiVisionService.php:139 | `$a[$k]`: a value exactly when the key is present, and then the value stored under it |
| PhpArray.Set | backend/app/Services/GeminiVisionService.php:146 | `$a[$k] = $v`: the key then holds `$v`, every other key keeps its value, an existing key keeps its position and a new key is appended at the end |
| PhpArray.SetExisting | backend/app/Services/GeminiVisionService.php:146 | writing back the value a key already holds leaves the array unchanged |
| PhpArray.SetSet | backend/app/Services/GeminiVisionService.php:146 | a second write to the same key wins, in the position of the first |
| PhpArray.GetAppend | backend/app/Services/GeminiVisionService.php:146 | looking up a key after appending an entry finds the old value if there was one, else the appended one |
| PhpArray.CastToList | backend/app/Services/GeminiVisionService.php:140 | `array_values((array) $v)`: null gives [], an array its values in order, a scalar the one-element list |
| PhpArray.ListValueRoundTrip | backend/app/Services/GeminiVisionService.php:140 | `array_values` numbers the values 0, 1, …, and casting that list back gives the same values |
| PhpArray.FilterTruthy | backend/app/Services/GeminiVisionService.php:140 | `array_filter` without a callback: only truthy values, each from the input, and every truthy input value is kept |
| PhpArray.FilterTruthyAppend | backend/app/Services/GeminiVisionService.php:140 | `array_filter` keeps order and repeats: the filter of a concatenation is the concatenation of the filters |
| PhpArray.FilterTruthyOne | backend/app/Services/GeminiVisionService.php:140 | one value is kept exactly when it is truthy; with the append law this fixes the whole result |
| PhpArray.FilterTruthyKeeps | backend/app/Services/GeminiVisionService.php:140 | a list of truthy values is returned unchanged |
| PhpArray.ToPhpString | backend/app/Services/GeminiVisionService.php:150 | `(string) $v`: an array has no cast (PHP throws "Array to string conversion"); otherwise the cast is empty exactly for null, false and "", and a string is its own cast |
| PhpArray.CastKeepsTruthiness | backend/app/Services/GeminiVisionService.php:150 | for every value that has a cast, the cast string is truthy exactly when the value is |
| PhpArray.DataGet | backend/app/Services/GeminiVisionService.php:116 | `data_get`: the empty path gives the value itself; a found value under a non-empty path means the value is an array holding the first key |
| PhpArray.DataGetOne | backend/app/Services/GeminiVisionService.php:139 | a one-segment `data_get` is the plain key lookup |
| PhpArray.DataGetPath | backend/app/Services/GeminiVisionService.php:116 | following the dotted path `p.q` is following `p` and then `q` from what was found |
| PhpArray.DataGetOr | backend/app/Services/GeminiVisionService.php:150 | `data_get` with a default: the value found at the path, or the default exactly when nothing is found |
| PhpArray.DataGetOrKey | backend/app/Services/GeminiVisionService.php:146 | `data_get($a, 'k', $d)`: the stored value (null included) when the key exists, else the default |
| OutfitAnalysis.Clamp | backend/app/Services/OutfitAnalysisService.php:54 | `max(lo, min(hi, x))` lies in [lo, hi], is `x` inside the range and the nearer bound outside it |
| OutfitAnalysis.Score | backend/app/Services/OutfitAnalysisService.php:19-54 | the score sum lies in [50, 90], so the final clamp to [0, 100] never changes it |
| OutfitAnalysis.Evaluate | backend/app/Services/OutfitAnalysisService.php:24-61 | the score is `Score`; one pro per score-raising rule; issues and suggestions pair up one to one; the "Complete outfit" pro is present iff the incompleteness issue is absent iff tops, bottoms and shoes are all non-empty |
| OutfitAnalysis.Analyze | backend/app/Services/OutfitAnalysisService.php:7-62 | the step-by-step `analyze` (score updated in place, lists appended to) returns exactly `Evaluate` of the counts, with a score in [0, 100] |
| OutfitAnalysis.NoPaletteAdjustment | backend/app/Services/OutfitAnalysisService.php:33-42 | zero colours or exactly five colours get no colour adjustment, no palette pro and no palette issue |
| OutfitAnalysis.ExtrasMonotone | backend/app/Services/OutfitAnalysisService.php:44-52 | more accessories or outerwear never lowers the score nor shortens the pros |
| OutfitAnalysis.FixtureScore | backend/app/Services/OutfitAnalysisService.php:24-36 | a top, a bottom, shoes and one colour score 85 with the complete-outfit and palette pros and no issues |
| OutfitAnalysis.CountAt | backend/app/Services/OutfitAnalysisService.php:9-15 | a category count exists exactly when `data_get` finds an array (or nothing, defaulting to `[]`) |
| OutfitAnalysis.DetectedOf | backend/app/Services/OutfitAnalysisService.php:9-24 | the counts exist exactly when every list `analyze` reaches can be counted; tops, outerwear, accessories and colours are always counted, bottoms only after non-empty tops and shoes only after non-empty tops and bottoms (the `&&` short-circuit); the outfit is complete exactly when all three are non-empty |
| OutfitAnalysis.ShortCircuitSkipsBottoms | backend/app/Services/OutfitAnalysisService.php:24 | a payload with no tops and a string under `bottoms` is scored (55): `count($bottoms)` is never reached |
| OutfitAnalysis.ShortCircuitCountsBottoms | backend/app/Services/OutfitAnalysisService.php:24 | with a top present, the same string under `bottoms` is counted, and `count` fails |
| ModelFallback.TrimAll | backend/app/Services/GeminiChatService.php:91 | `array_map('trim', …)` trims every piece and keeps the number of pieces |
| ModelFallback.KeepTruthy | backend/app/Services/GeminiChatService.php:91 | `array_filter` keeps exactly the truthy names (drops "" and "0"), never adding any |
| ModelFallback.KeepTruthyAppend | backend/app/Services/GeminiChatService.php:91 | filtering keeps order and repeats: the filter of a concatenation is the concatenation of the filters |
| ModelFallback.KeepTruthyOne | backend/app/Services/GeminiChatService.php:91 | one name is kept exactly when it is truthy; with the append law this fixes the whole result |
| ModelFallback.Candidates | backend/app/Services/GeminiChatService.php:89-91 | the configured names are truthy, comma-free and no more than the comma-split pieces |
| ModelFallback.TrimKeepsOut | backend/app/Services/GeminiChatService.php:91 | trimming pieces never introduces a character (so no candidate contains a comma) |
| ModelFallback.StripModelsPrefix | backend/app/Services/GeminiChatService.php:102 | a leading `models/` is removed once; other names are kept |
| ModelFallback.NormalizedMembers | backend/app/Services/GeminiChatService.php:100-106 | the normalised list has no duplicates and no falsy names, and holds exactly the truthy stripped forms of the inputs |
| ModelFallback.Normalized | backend/app/Services/GeminiChatService.php:100-106 | the deduplicated list is never longer than its input |
| ModelFallback.NormalizedPrefix | backend/app/Services/GeminiChatService.php:100-106 | earlier names keep their places: the list for a prefix of the input is a prefix of the list |
| ModelFallback.NormalizeNames | backend/app/Services/GeminiChatService.php:100-106 | the dedupe loop computes `Normalized` (first occurrence kept) |
| ModelFallback.BuildModelFallbackList | backend/app/Services/GeminiVisionService.php:177-202 | `buildModelFallbackList`: configured names first, then the fallbacks, deduplicated, with no falsy name |
| ModelFallback.DistinctCard | backend/app/Services/GeminiChatService.php:100-106 | a duplicate-free list has as many distinct names as entries |
| ModelFallback.ChatFallbacksPlain | backend/app/Services/GeminiChatService.php:92-96 | the three chat fallbacks are distinct, truthy and unprefixed |
| ModelFallback.VisionFallbacksPlain | backend/app/Services/GeminiVisionService.php:182-189 | the six vision fallbacks are distinct, truthy and unprefixed |
| ModelFallback.FallbacksKept | backend/app/Services/GeminiChatService.php:98-106 | every plain fallback survives deduplication, so the list is at least as long as the fallbacks |
| ModelFallback.ChatListLength | backend/app/Services/GeminiChatService.php:87-109 | the chat list holds between 3 and (number of configured names) + 3 models |
| ModelFallback.VisionListLength | backend/app/Services/GeminiVisionService.php:20 | the vision list holds at least six models, so its first two always exist |
| JsonText.FirstIndex | backend/app/Services/GeminiVisionService.php:214 | `strpos`: the first index holding the character, or the length when absent |
| JsonText.LastIndex | backend/app/Services/GeminiVisionService.php:215 | `strrpos`: the last index holding the character, or -1 when absent |
| JsonText.LetterRun | backend/app/Services/GeminiVisionService.php:209 | the greedy `[a-zA-Z]*` run after the opening fence |
| JsonText.BraceSpan | backend/app/Services/GeminiVisionService.php:214-224 | with a `{` before a later `}`, the result is exactly the span from the first `{` to the last `}`; otherwise the text unchanged |
| JsonText.SpanTrimmed | backend/app/Services/GeminiVisionService.php:217-219 | a span from a `{` to a `}` has nothing for `trim` to remove, so the candidate is never empty |
| JsonText.ExtractJson | backend/app/Services/GeminiVisionService.php:204-225 | `extractJson`: the brace span of the trimmed, fence-stripped text when it has one, otherwise that text |
| JsonText.ExtractSpanFixpoint | backend/app/Services/GeminiVisionService.php:204-225 | a text that already is one brace span is returned unchanged |
| JsonText.ExtractedSpan | backend/app/Services/GeminiVisionService.php:214-221 | a found span starts with `{` and ends with `}` |
| JsonText.ExtractJsonIdempotent | backend/app/Services/GeminiVisionService.php:204-225 | extracting twice gives what extracting once gives, when a span was found |
| JsonText.StripTrailingCommas | backend/app/Services/GeminiVisionService.php:160 | removing `,\s*` before `}` or `]` never lengthens the text |
| JsonText.StripMatch | backend/app/Services/GeminiVisionService.php:160 | a comma, any whitespace and a closer become just that closer, and the scan resumes after the closer |
| JsonText.StripAppend | backend/app/Services/GeminiVisionService.php:160 | the scan never reaches across a point followed by neither whitespace nor a closer, so the text may be split there and each part stripped alone |
| JsonText.StripUnchangedIff | backend/app/Services/GeminiVisionService.php:160 | the text is changed exactly when it holds a comma followed, after optional whitespace, by `}` or `]` |
| JsonText.StripSinglePass | backend/app/Services/GeminiVisionService.php:160 | `preg_replace` makes one left-to-right pass: in `,,]` only the second comma goes, leaving `,]` with a trailing comma |
| JsonText.StripKeepsSolid | backend/app/Services/GeminiVisionService.php:160 | comma stripping only deletes commas and whitespace: all other characters stay in order |
| JsonText.StripKeepsBrackets | backend/app/Services/GeminiVisionService.php:160-165 | comma stripping keeps the count of each bracket and brace |
| JsonText.CloseBrackets | backend/app/Services/GeminiVisionService.php:162-172 | the input followed by exactly max(0, #`[` − #`]`) `]`s and then max(0, #`{` − #`}`) `}`s; afterwards #`]` ≥ #`[` and #`}` ≥ #`{` |
| JsonText.RepairJson | backend/app/Services/GeminiVisionService.php:155-175 | `repairJson`: the trimmed text with its trailing commas stripped (changed exactly when it has one; all other non-space characters kept), followed by the missing `]`s and then the missing `}`s, so the closers balance the openers |
| JsonText.RepairBalanced | backend/app/Services/GeminiVisionService.php:155-175 | already balanced text only loses its trailing commas |
| VisionPayload.CleanList | backend/app/Services/GeminiVisionService.php:140 | `array_values(array_filter((array) $v))` is a list whose values are the truthy values of the cast input, in order, repeats kept |
| VisionPayload.CleanListIdempotent | backend/app/Services/GeminiVisionService.php:140 | cleaning a cleaned list changes nothing |
| VisionPayload.ValueAtIsDataGet | backend/app/Services/GeminiVisionService.php:146 | the value cleaned under a key is `data_get($a, $k, [])` |
| VisionPayload.CleanKey | backend/app/Services/GeminiVisionService.php:146 | the key holds the cleaned list of its old value (`[]` when missing) and every other key is as it was |
| VisionPayload.CleanKeyIsClean | backend/app/Services/GeminiVisionService.php:146 | after the assignment the key holds a clean list: the truthy values of the old one, in order |
| VisionPayload.CleanKeyFixed | backend/app/Services/GeminiVisionService.php:146 | a key already holding a clean list is left as it is |
| VisionPayload.CleanKeys | backend/app/Services/GeminiVisionService.php:146-149 | each named key holds the cleaned list of its own old value (a repeated key too), and every other key is untouched |
| VisionPayload.CleanKeysAreClean | backend/app/Services/GeminiVisionService.php:146-149 | after cleaning, each named key holds a clean list made of the truthy values of its old list, in order |
| VisionPayload.CleanKeysFixed | backend/app/Services/GeminiVisionService.php:146-149 | keys that are already clean are left as they are |
| VisionPayload.WithCleanItems | backend/app/Services/GeminiVisionService.php:139-144 | `items` becomes the decoded `items` array (or []) with each of the five garment categories replaced by the cleaned list of its old value; no other top-level key changes |
| VisionPayload.WithDescription | backend/app/Services/GeminiVisionService.php:150 | an array under `description` makes the cast throw, and then there is no result; otherwise `description` becomes the string cast of the old value (`''` when absent) and nothing else changes |
| VisionPayload.DescriptionOf | backend/app/Services/GeminiVisionService.php:150 | `(string) data_get($decoded, 'description', '')`: `''` when absent, the cast of the stored value otherwise, and no string exactly when that value is an array |
| VisionPayload.Described | backend/app/Services/GeminiVisionService.php:150 | the assignment: `description` holds the given string and every other key keeps its value |
| VisionPayload.WithCleanTags | backend/app/Services/GeminiVisionService.php:146-149 | colours, patterns, materials and style tags each become the cleaned list of their old value; nothing else changes |
| VisionPayload.NormalizeVisionPayload | backend/app/Services/GeminiVisionService.php:137-153 | the payload is normalised exactly when its `description` is not an array (otherwise the cast throws); then each garment category and tag list is the cleaned list of its input value (truthy values in order), `description` is the string cast of the old one, and every other key is untouched |
| VisionPayload.NormalizeSteps | backend/app/Services/GeminiVisionService.php:137-153 | the three groups of assignments write disjoint keys, so each keeps what the others wrote |
| VisionPayload.NormalFixed | backend/app/Services/GeminiVisionService.php:137-153 | a payload already in normal shape is returned unchanged |
| VisionPayload.NormalizeIdempotent | backend/app/Services/GeminiVisionService.php:137-153 | normalising twice equals normalising once |
| VisionPayload.ArrayDescriptionThrows | backend/app/Services/GeminiVisionService.php:150 | a payload whose `description` is an array is never normalised |
| VisionPayload.NormalListsTruthy | backend/app/Services/GeminiVisionService.php:146-149 | every tag list of a normal payload is a list of truthy values |
| VisionPayload.NormalHasCounts | backend/app/Services/GeminiVisionService.php:139-149 | the scoring heuristic can count every list of a normal payload, so it never fails on one |
| GeminiCall.FailureText | backend/app/Services/GeminiChatService.php:84 | `prefix . ($lastStatus ?? 0) . ' ' . ($lastError ?? 'Unknown error')` in both cases |
| GeminiCall.Failure404 | backend/app/Services/GeminiChatService.php:84 | the failure text after a 404 reads `prefix . "404 " . body` |
| GeminiCall.ReplyText | backend/app/Services/GeminiChatService.php:60-61 | a reply text exists exactly when `candidates.0.content.parts.0.text` is a non-blank string, and it is that string |
| GeminiCall.TryModels | backend/app/Services/GeminiChatService.php:53-84 | the loop over the models: an empty list ends exhausted with the failure it started with, and an answer or a throw needs at least one request |
| GeminiCall.ThrownBy | backend/app/Services/GeminiChatService.php:53-81 | a thrown failure comes from the first model that answered neither 200 nor 404, after only 404s, and reads the quota text plus body for a 429 and `prefix . status . ' ' . body` otherwise |
| GeminiCall.RequestModels | backend/app/Services/GeminiChatService.php:53-82 | the request loop (with `$lastStatus`/`$lastError` updated in place) ends as `TryModels`: 200 stops, 404 continues, 429 and any other status fail |
| GeminiCall.AnsweredBy | backend/app/Services/GeminiChatService.php:53-73 | an answer comes from some listed model with status 200, and every model before it answered 404 |
| GeminiCall.ExhaustedAfter404 | backend/app/Services/GeminiChatService.php:71-84 | running out of models after at least one request reports a 404 as the last status |
| GeminiCall.TwoNotFound | backend/app/Services/GeminiVisionService.php:105-113 | two models both answering 404 exhaust the loop with the second body |
| GeminiCall.ExhaustedAll404 | backend/app/Services/GeminiChatService.php:71-73 | when the loop runs out of models, every model answered 404 |
| GeminiCall.TryModelsLocal | backend/app/Services/GeminiChatService.php:53-82 | the loop only depends on the answers for the listed models |
| GeminiVision.ModelsToTry | backend/app/Services/GeminiVisionService.php:19-20 | the first two names of the vision fallback list, in order |
| GeminiVision.Snippet | backend/app/Services/GeminiVisionService.php:130 | `mb_substr($json, 0, 400)` is a prefix of at most 400 characters, the whole text when it is short |
| GeminiVision.AnalyzeOutfitImage | backend/app/Services/GeminiVisionService.php:12-135 | the method, run step by step, returns `AnalyzeImage`: the normalised payload or the message of the exception thrown, the cast error of an array `description` included |
| GeminiVision.AnalyzeImage | backend/app/Services/GeminiVisionService.php:12-135 | a falsy key fails with the missing-key message; otherwise the result is what follows the loop over the two models, and a success is always a normal payload |
| GeminiVision.AfterLoop | backend/app/Services/GeminiVisionService.php:112-134 | after the loop: a throw passes its message on, no array answer fails with the last status text, a blank text with the empty-response message, and otherwise the result is the text's payload; a success is a normal payload |
| GeminiVision.Decoded | backend/app/Services/GeminiVisionService.php:121-127 | the extracted JSON decoded when that gives an array, else the repaired text decoded |
| GeminiVision.PayloadOf | backend/app/Services/GeminiVisionService.php:121-134 | a decoded value that is no array fails with the invalid-JSON message and the snippet; an array is normalised, failing with the cast error exactly when normalisation throws; a success is a normal payload whose lists are the cleaned lists of the decoded ones |
| GeminiVision.PayloadFailure | backend/app/Services/GeminiVisionService.php:121-150 | a failure after decoding means either that neither the extracted nor the repaired text decoded, the message carrying at most the first 400 characters of the extracted JSON, or that the decoded `description` is an array |
| GeminiVision.MissingKeyFails | backend/app/Services/GeminiVisionService.php:14-17 | a falsy API key fails with "Missing GEMINI_API_KEY." before any request |
| GeminiVision.OnlyTwoModels | backend/app/Services/GeminiVisionService.php:20-74 | only the first two fallback models are contacted: answers for any other model do not change the result |
| GeminiVision.QuotaReported | backend/app/Services/GeminiVisionService.php:99-103 | a 429 from the first model fails with the quota message ending in its body |
| GeminiVision.Both404 | backend/app/Services/GeminiVisionService.php:105-113 | both models answering 404 fail with "Gemini request failed: 404 " and the second body |
| GeminiVision.SuccessIsNormal | backend/app/Services/GeminiVisionService.php:91-134 | a success comes from a 200 of one of the two models after only 404s, and it is a normal payload the scoring heuristic can count |
| GeminiChat.ChatModels | backend/app/Services/GeminiChatService.php:17 | the chat service tries the whole list: between 3 and (configured names) + 3 models |
| GeminiChat.ReplyOf | backend/app/Services/GeminiChatService.php:59-65 | a 200 answer gives a reply exactly when its text is a non-blank string, and the reply is that text trimmed (trimming again changes nothing); otherwise the empty-response failure |
| GeminiChat.Reply | backend/app/Services/GeminiChatService.php:9-85 | a falsy key fails with the missing-key message; a reply needs a key and a 200 answer, and after a 200 answer the result is `ReplyOf` of it |
| GeminiChat.ReplyTo | backend/app/Services/GeminiChatService.php:9-85 | the method, run step by step, returns `Reply`: the trimmed text or the exception message |
| GeminiChat.ReplyShape | backend/app/Services/GeminiChatService.php:59-65 | a reply is trimmed and non-empty, and it is the text of a 200 answer from a model that followed only 404s |
| GeminiChat.All404 | backend/app/Services/GeminiChatService.php:71-84 | every model answering 404 fails with "Gemini chat request failed: 404 " and the last body |
| GeminiChat.ExhaustedLast | backend/app/Services/GeminiChatService.php:68-73 | running out of models reports the body of the last model asked |
| GeminiChat.BlankAnswerFails | backend/app/Services/GeminiChatService.php:59-63 | a blank first 200 answer fails with the empty-response message; the remaining models are not tried |
| GeminiChat.QuotaReported | backend/app/Services/GeminiChatService.php:75-79 | a 429 from the first model fails with the quota message ending in its body |
| RetryAfter.FirstMatch | backend/app/Http/Controllers/OutfitScanController.php:165 | `preg_match` finds the leftmost position where the pattern matches, and no earlier position matches; none means no position matches |
| RetryAfter.Run | backend/app/Http/Controllers/OutfitScanController.php:165 | a greedy character-class run stops at the end or at the first character outside the class |
| RetryAfter.RunDigits | backend/app/Http/Controllers/OutfitScanController.php:174 | a `\d+` run is a numeral |
| RetryAfter.UnitsDiffer | backend/app/Http/Controllers/OutfitScanController.php:165 | `ms.` and `s.` cannot both start at one position, so the unit alternation is unambiguous |
| RetryAfter.UnitAtSound | backend/app/Http/Controllers/OutfitScanController.php:165 | the unit the matcher reads is the text at that position, ignoring case |
| RetryAfter.PleaseRetrySound | backend/app/Http/Controllers/OutfitScanController.php:165 | whatever the `Please retry in\s+([0-9.]+)\s*(ms\|s)\.` matcher returns is a match of the pattern, with the captured digits and unit |
| RetryAfter.PleaseRetryComplete | backend/app/Http/Controllers/OutfitScanController.php:165 | every match of that pattern at a position is found by the matcher, with the same capture and unit |
| RetryAfter.RetryDelaySound | backend/app/Http/Controllers/OutfitScanController.php:174 | whatever the `"retryDelay"\s*:\s*"(\d+)s"` matcher returns is a match of the pattern, and the capture is its digits |
| RetryAfter.RetryDelayDigits | backend/app/Http/Controllers/OutfitScanController.php:174 | the `retryDelay` capture consists of digits only |
| RetryAfter.RetryDelayComplete | backend/app/Http/Controllers/OutfitScanController.php:174 | every match of the `retryDelay` pattern is found by the matcher, with the same digits |
| RetryAfter.FracDigits | backend/app/Http/Controllers/OutfitScanController.php:166 | the fraction digits that `(float)` reads after the first dot form a numeral |
| RetryAfter.DecimalOf | backend/app/Http/Controllers/OutfitScanController.php:166 | `(float)` of a `[0-9.]+` capture as an exact fraction with a positive denominator |
| RetryAfter.CeilDiv | backend/app/Http/Controllers/OutfitScanController.php:169-171 | `ceil(a / b)`: the least multiple count of `b` that reaches `a` |
| RetryAfter.Max1 | backend/app/Http/Controllers/OutfitScanController.php:169-175 | `max(1, n)` is at least 1 and at least `n`, and `n` itself when `n` ≥ 1 |
| RetryAfter.ParseRetryAfterSeconds | backend/app/Http/Controllers/OutfitScanController.php:163-179 | `parseRetryAfterSeconds` answers null exactly when neither pattern matches anywhere, and otherwise at least 1 |
| RetryAfter.CeilSeconds | backend/app/Http/Controllers/OutfitScanController.php:171 | "Please retry in N s." answers the exact ceiling of N: the whole part, plus one when the fraction is non-zero |
| RetryAfter.CeilUnique | backend/app/Http/Controllers/OutfitScanController.php:169-171 | the ceiling is the only natural satisfying its two defining inequalities |
| RetryAfter.InlineRetryAfter | backend/app/Http/Controllers/OutfitChatController.php:301-307 | `storeMessage`'s own delay is null exactly when neither `retry in ([0-9.]+)s` nor the `retryDelay` pattern matches anywhere |
| RetryAfter.SameDelayDigits | backend/app/Http/Controllers/OutfitChatController.php:303-307 | without any `retry in` text, both readings fall back to the `retryDelay` digits, and `parseRetryAfterSeconds` answers the inline reading raised to at least 1 |
| AnalysisProcess.ErrorReply | backend/app/Http/Controllers/OutfitScanController.php:60-68 | a caught exception answers 429 exactly when its text contains "Gemini quota exceeded (429)", otherwise 502 with a null `retry_after`; a delay, when given, is at least 1 |
| AnalysisProcess.PublicMessage | backend/app/Http/Controllers/OutfitScanController.php:83 | the response message is the quota text exactly for 429, else the vision-failure text |
| AnalysisProcess.QuotaFailureIs429 | backend/app/Http/Controllers/OutfitScanController.php:65-67 | the quota failure thrown by the Gemini services is answered with 429 |
| AnalysisProcess.CountErrorIs502 | backend/app/Http/Controllers/OutfitScanController.php:60-68 | the `TypeError` thrown by `count` on a malformed payload is answered with 502 and no delay |
| AnalysisProcess.ArrayToStringIs502 | backend/app/Http/Controllers/OutfitScanController.php:60-68 | the "Array to string conversion" error raised inside the `try` block is answered with 502 and no delay |
| AnalysisProcess.TryAnalyze | backend/app/Http/Controllers/OutfitScanController.php:35-58 | the `try` block succeeds exactly when the vision call returned (its cast error included among the failures) and its payload can be counted; a vision failure passes its message on, a malformed payload fails with the `count` error, and a success carries the payload and the array the feedback call returned (else nothing) |
| AnalysisProcess.FeedbackNeverDecides | backend/app/Http/Controllers/OutfitScanController.php:44-55 | whatever the context-feedback call returns or throws, the attempt succeeds or fails alike, with the same vision and analysis |
| AnalysisProcess.AttemptScore | backend/app/Http/Controllers/OutfitScanController.php:37-41 | a successful attempt carries the vision payload, and its score lies within 50..90 |
| AnalysisProcess.ClosedShape | backend/app/Http/Controllers/OutfitScanController.php:26-109 | a record opened `processing` ends `failed` exactly when the attempt failed (mapped status, message, nothing linked); `completed` with the analysis and the link exactly when it succeeded and the rows were written without a throw; and stays `processing`, with the analysis but no link, when a label cast threw while the rows were written |
| AnalysisProcess.ProcessIdsAppend | backend/app/Http/Controllers/OutfitScanController.php:26-34 | opening the next record keeps record ids equal to row order |
| AnalysisProcess.ProcessIdsUpdate | backend/app/Http/Controllers/OutfitScanController.php:70-74 | updating a record in place keeps record ids equal to row order |
| DetectedItems.CastToArray | backend/app/Http/Controllers/OutfitScanController.php:131 | `(array)`: an array stays itself, null becomes `[]`, a scalar becomes `[0 => scalar]` |
| DetectedItems.CategoryOf | backend/app/Http/Controllers/OutfitScanController.php:146 | the category is the items key exactly when that key is a non-empty string, else null |
| DetectedItems.LabelOf | backend/app/Http/Controllers/OutfitScanController.php:135 | `trim((string) $label)`: no label exactly when the cast throws on an array; a string label is trimmed |
| DetectedItems.LabelTrimmed | backend/app/Http/Controllers/OutfitScanController.php:135 | a label is already trimmed: trimming it again changes nothing |
| DetectedItems.ThrowsIff | backend/app/Http/Controllers/OutfitScanController.php:134-135 | a label list throws exactly when one of its labels is an array |
| DetectedItems.CatsThrowIff | backend/app/Http/Controllers/OutfitScanController.php:133-135 | the category loop throws exactly when some category's label list holds an array |
| DetectedItems.ThrowsAppend | backend/app/Http/Controllers/OutfitScanController.php:134-135 | two label lists joined throw exactly when one of them does |
| DetectedItems.CatsThrowAppend | backend/app/Http/Controllers/OutfitScanController.php:133-135 | two category lists joined throw exactly when one of them does |
| DetectedItems.RowsFor | backend/app/Http/Controllers/OutfitScanController.php:140-151 | one row per detection |
| DetectedItems.Summaries | backend/app/Http/Controllers/OutfitScanController.php:155-160 | one summary per created row |
| DetectedItems.LabelsAppend | backend/app/Http/Controllers/OutfitScanController.php:134-152 | the rows of two label lists are the rows of each, in order |
| DetectedItems.DetectedAppend | backend/app/Http/Controllers/OutfitScanController.php:133-153 | the rows of two category lists are the rows of each, in order (category-then-label order) |
| DetectedItems.LabelsShape | backend/app/Http/Controllers/OutfitScanController.php:134-146 | every row of a label list has a non-blank trimmed label taken from one of the labels, and that list's category |
| DetectedItems.LabelsComplete | backend/app/Http/Controllers/OutfitScanController.php:134-146 | every label that trims to something non-empty gives a row with that trimmed label |
| DetectedItems.BlankLabels | backend/app/Http/Controllers/OutfitScanController.php:135-138 | a list of blank labels gives no rows |
| DetectedItems.DetectedSound | backend/app/Http/Controllers/OutfitScanController.php:133-151 | every row has a non-blank trimmed label from some category entry, and that entry's category |
| DetectedItems.DetectedComplete | backend/app/Http/Controllers/OutfitScanController.php:133-151 | every non-blank label of every category gives a row with that label and category |
| DetectedItems.DetectedStops | backend/app/Http/Controllers/OutfitScanController.php:133-153 | when the cast throws at label j of category i, the rows written are those of every category before i and of the labels before j, and nothing after |
| DetectedItems.ThrowingHead | backend/app/Http/Controllers/OutfitScanController.php:133-135 | a first category whose labels throw gives only its own rows before the throw |
| DetectedItems.ThrowSplit | backend/app/Http/Controllers/OutfitScanController.php:133-135 | after categories that do not throw, a throwing category adds its rows up to the throw and ends the list |
| DetectedItems.NoItemsNoRows | backend/app/Http/Controllers/OutfitScanController.php:131-133 | a payload whose `items` is missing or empty gives no rows |
| DetectedItems.RowsAppend | backend/app/Http/Controllers/OutfitScanController.php:140 | rows of two runs of detections are numbered one after the other |
| DetectedItems.DetectedItemTable.constructor | backend/app/Http/Controllers/OutfitScanController.php:128-130 | the table starts empty |
| DetectedItems.DetectedItemTable.Create | backend/app/Http/Controllers/OutfitScanController.php:140-151 | `create` appends exactly one row with the next id and the given columns |
| DetectedItems.DetectedItemTable.PersistLabel | backend/app/Http/Controllers/OutfitScanController.php:134-151 | one turn of the inner loop: an array label throws and writes nothing; any other label writes one row when it trims to something non-empty and none otherwise |
| DetectedItems.DetectedItemTable.PersistLabels | backend/app/Http/Controllers/OutfitScanController.php:134-152 | the inner loop appends exactly the rows of that category's non-blank labels, in order, numbered from the next id, and reports a throw exactly when a label is an array, keeping the rows written before it |
| DetectedItems.DetectedItemTable.PersistCategories | backend/app/Http/Controllers/OutfitScanController.php:133-153 | the outer loop appends the rows of every category in order and returns their summaries; it reports a throw exactly when some label is an array, with the rows written up to that label |
| DetectedItems.DetectedItemTable.Persist | backend/app/Http/Controllers/OutfitScanController.php:128-161 | `persistDetectedItems` appends exactly the rows of the non-blank labels under `items` up to the first label that is an array, all with the payload's colours and the cover image; it returns their summaries, or nothing (the exception) exactly when some label is an array |
| ScanStore.FailureReply | backend/app/Http/Controllers/OutfitScanController.php:60-86 | the failure response carries the process id and 429 (quota text) or 502 with its public message; a 502 has no `retry_after` |
| ScanStore.ScanController.constructor | backend/app/Http/Controllers/OutfitScanController.php:14 | the tables start empty |
| ScanStore.ScanController.Open | backend/app/Http/Controllers/OutfitScanController.php:26-34 | `create` appends one `processing` record with the next id and changes nothing else |
| ScanStore.CreatedReply | backend/app/Http/Controllers/OutfitScanController.php:97-125 | the 201 answer carries the scan, one summary per row and the process id; when a label throws the request ends instead with the uncaught cast error (a 500) |
| ScanStore.ScanController.SaveRows | backend/app/Http/Controllers/OutfitScanController.php:97-104 | appends the rows `persistDetectedItems` writes and returns their summaries, or nothing exactly when a label throws |
| ScanStore.ScanController.Complete | backend/app/Http/Controllers/OutfitScanController.php:89-125 | creates the scan with the analysis score and its detected rows; the record is closed `completed` and linked to the scan, except when a label throws, when it stays `processing` and the answer is the uncaught error |
| ScanStore.ScanController.Settle | backend/app/Http/Controllers/OutfitScanController.php:60-125 | a failed attempt closes the record `failed` and adds no scan and no rows; a successful one adds the scan and its rows and closes the record as `Closed` says |
| ScanStore.ScanController.Store | backend/app/Http/Controllers/OutfitScanController.php:16-126 | `store`: one new record ending as `Closed` of the attempt; a failed attempt adds no scan and no rows and answers the mapped failure; a successful one adds one scan and its rows and answers `CreatedReply` |
| ScanStore.ScanScore | backend/app/Http/Controllers/OutfitScanController.php:89-95 | a scan's score is its analysis score, within 50..90 |
| ChatSession.OfSession | backend/app/Http/Controllers/OutfitChatController.php:275-276 | holds exactly the messages of that session, in row order |
| ChatSession.Latest | backend/app/Http/Controllers/OutfitChatController.php:277-281 | `orderByDesc('id')->limit(n)->reverse()`: the last `min(n, count)` messages, in ascending order |
| ChatSession.Visible | backend/app/Http/Controllers/OutfitChatController.php:282 | keeps exactly the messages whose meta does not read `status = failed` |
| ChatSession.TurnsOf | backend/app/Http/Controllers/OutfitChatController.php:284 | one `{role, content}` turn per message, position by position |
| ChatSession.Context | backend/app/Http/Controllers/OutfitChatController.php:275-289 | at most 13 turns, the last being the user's content |
| ChatSession.ContextShape | backend/app/Http/Controllers/OutfitChatController.php:275-289 | the AI context has at most 13 turns and ends with the user's content; every turn before it is, in order, a non-failed message of the session among its 12 latest |
| ChatSession.ChatQuotaIs429 | backend/app/Http/Controllers/OutfitChatController.php:309-314 | the Gemini client's quota failure is reported to the chat as 429 |
| ChatSession.ChatErrorStatus | backend/app/Http/Controllers/OutfitChatController.php:309-314 | 429 exactly when the error text contains one of the three quota markers, else 502 |
| ChatSession.ChatPublicMessage | backend/app/Http/Controllers/OutfitChatController.php:309-314 | the quota text exactly for 429, else the reply-failed text |
| ChatSession.FailureMeta | backend/app/Http/Controllers/OutfitChatController.php:316-336 | the meta written after a failed reply reads `status = failed` |
| ChatSession.Without | backend/app/Http/Controllers/OutfitChatController.php:355 | `unset` leaves none of the named keys |
| ChatSession.Cleared | backend/app/Http/Controllers/OutfitChatController.php:354-356 | the meta after a successful retry no longer reads as failed (null when nothing is left) |
| ChatSession.WithoutWritten | backend/app/Http/Controllers/OutfitChatController.php:330-355 | unsetting a key after writing it equals unsetting it without the write |
| ChatSession.MarkedFailed | backend/app/Http/Controllers/OutfitChatController.php:329-334 | after the four failure keys are written the message reads as failed |
| ChatSession.WithoutNotFailed | backend/app/Http/Controllers/OutfitChatController.php:354-356 | removing the four failure keys removes the failed status |
| ChatSession.WithoutMarked | backend/app/Http/Controllers/OutfitChatController.php:329-356 | removing the failure keys undoes writing them |
| ChatSession.ClearUndoesFailure | backend/app/Http/Controllers/OutfitChatController.php:316-358 | a failure followed by a successful retry leaves the meta it had before; a message that failed on its first try ends with null meta |
| ChatSession.FindUserMessage | backend/app/Http/Controllers/OutfitChatController.php:253-258 | finds a user message of that session with that id, and none exactly when there is no such message |
| ChatSession.Answer | backend/app/Http/Controllers/OutfitChatController.php:290-379 | the AI's reply is stored exactly when the call succeeds, as the assistant's content; a failure leaves the session alone; earlier rows keep their id and content |
| ChatSession.AnswerFailed | backend/app/Http/Controllers/OutfitChatController.php:299-344 | a failed reply leaves the session and turn count alone, answers 429 or 502, and stores a new user message, or updates the retried one in place, marked failed |
| ChatSession.AnswerReplied | backend/app/Http/Controllers/OutfitChatController.php:347-379 | a reply clears the retried message's failure keys (or stores a new user message), appends the assistant's message with the next id, uses one more turn and closes the session when it reaches 10 |
| ChatSession.StoreMessageOf | backend/app/Http/Controllers/OutfitChatController.php:232-247 | `storeMessage` checks ownership first (404), then the ten-turn limit (429), and a refusal leaves the session and the messages as they were |
| ChatSession.RefusedIff | backend/app/Http/Controllers/OutfitChatController.php:236-273 | a request is refused exactly when the session is someone else's, has 10 or more turns, the retried message is missing or not failed, or a new message is blank; a refusal changes nothing, and a 429 refusal means the turn limit |
| ChatSession.TurnAccounting | backend/app/Http/Controllers/OutfitChatController.php:338-369 | a failed reply uses no turn and answers 429 or 502; a successful one uses exactly one and leaves the session closed exactly when it reaches 10 (or already was) |
| ChatSession.SoundKept | backend/app/Http/Controllers/OutfitChatController.php:240-369 | a session with 1..10 turns that is closed exactly at 10 stays so after any request |
| ChatSession.RowsAdded | backend/app/Http/Controllers/OutfitChatController.php:316-364 | a new message adds one row on failure and two on success; a retry adds only the assistant's row; earlier rows keep id and content; the assistant's row comes last |
| ChatSession.FreshStep | backend/app/Http/Controllers/OutfitChatController.php:269-273 | a new non-blank message in an open session of the user goes to the AI |
| ChatSession.RetryStep | backend/app/Http/Controllers/OutfitChatController.php:253-268 | a retry of a failed message sends its stored content to the AI, whatever the request's content |
| ChatSession.RetryRecovers | backend/app/Http/Controllers/OutfitChatController.php:253-358 | a message whose reply failed, retried successfully, ends exactly as a first attempt that succeeded with the same reply: same rows, same session, same answer |
| ChatSession.FailedFindable | backend/app/Http/Controllers/OutfitChatController.php:253-327 | the failed message a first attempt stores is the one a retry of its id finds |
| ChatSession.RepliedAfterFailed | backend/app/Http/Controllers/OutfitChatController.php:347-358 | replying to the retried message yields the rows a first-time reply yields |
| ChatSession.Ucfirst | backend/app/Http/Controllers/OutfitChatController.php:197 | `ucfirst`: the first character upper-cased, the rest kept, the length unchanged |
| ChatSession.UcfirstIdempotent | backend/app/Http/Controllers/OutfitChatController.php:197 | `ucfirst` twice is `ucfirst` once |
| ChatSession.Implode | backend/app/Http/Controllers/OutfitChatController.php:202-205 | `implode`: the pieces in order with one separator between neighbours |
| ChatSession.ImplodeExplode | backend/app/Http/Controllers/OutfitChatController.php:202 | pieces free of the separator are recovered by splitting the imploded text |
| ChatSession.ContextLine | backend/app/Http/Controllers/OutfitChatController.php:194-198 | a feedback row throws exactly when its status or message is an array; otherwise it gives no line exactly when the message casts to "", and a line starts with the `ucfirst` key and " (" and ends with the message |
| ChatSession.ContextLines | backend/app/Http/Controllers/OutfitChatController.php:192-199 | the loop throws (the cast error) exactly when some row's status or message is an array |
| ChatSession.ContextLinesShape | backend/app/Http/Controllers/OutfitChatController.php:192-199 | without a throw: at most one line per row, none exactly when every row gives none, and each line comes from some row |
| ChatSession.FallbackBody | backend/app/Http/Controllers/OutfitChatController.php:202-205 | the text after the score line throws exactly when the context lines do; it opens with "Context:" exactly when there are lines, and ends with the imploded suggestions |
| ChatSession.FallbackText | backend/app/Http/Controllers/OutfitChatController.php:201-205 | the fallback reply throws exactly when a context row has an array status or message; otherwise it starts with the score line, followed by a "Context:" section exactly when there are context lines |
| ChatSession.OpeningAnswer | backend/app/Http/Controllers/OutfitChatController.php:181-206 | the assistant's first text is the AI's reply when the call succeeds, else the fallback text, and it can fail only with the cast error |
| ChatSession.OpeningShape | backend/app/Http/Controllers/OutfitChatController.php:138-218 | `analyze` opens a session with one turn, active; the user's opening is never blank and is the request message exactly when that is truthy; the first reply is never failed and leads with the score when the AI call throws |
| ChatSession.ChatRecordShape | backend/app/Http/Controllers/OutfitChatController.php:161-209 | the chat's record is `Closed` of the attempt plus `assistant_text`, which is set exactly when the assistant's first message is stored, and then equals its content |
| ChatSession.SessionTableAppend | backend/app/Http/Controllers/OutfitChatController.php:140-150 | creating the next session keeps ids equal to row order and every session sound |
| ChatSession.SessionTableUpdate | backend/app/Http/Controllers/OutfitChatController.php:366-370 | saving a sound session in place keeps the table sound |
| ChatSession.MessageIdsAppend | backend/app/Http/Controllers/OutfitChatController.php:348-352 | creating the next message keeps ids equal to row order |
| ChatSession.MessageIdsUpdate | backend/app/Http/Controllers/OutfitChatController.php:334-335 | saving a message in place keeps ids equal to row order |
| ChatSession.ChatController.constructor | backend/app/Http/Controllers/OutfitChatController.php:18 | the tables start empty |
| ChatSession.ChatController.OpenProcess | backend/app/Http/Controllers/OutfitChatController.php:75-83 | `create` appends one `processing` record with the next id, keeping process ids equal to positions; sessions and messages are untouched |
| ChatSession.ChatController.SetProcess | backend/app/Http/Controllers/OutfitChatController.php:89-164 | each `$process->save()` (after the analysis, and on completion) replaces the record just opened, in place, and changes nothing else |
| ChatSession.ChatController.Abandon | backend/app/Http/Controllers/OutfitChatController.php:75-136 | a failed analysis appends one record, closed `failed`, answers the mapped status with the process id, and stores no session and no message |
| ChatSession.ChatController.Converse | backend/app/Http/Controllers/OutfitChatController.php:166-206 | appends the user's opening (the request message or the default) and its image attachment, and yields the AI's reply or, when that throws, the fallback text |
| ChatSession.ChatController.PostOpening | backend/app/Http/Controllers/OutfitChatController.php:211-218 | appends the assistant's first message with the next id and the score in its meta |
| ChatSession.ChatController.Reply | backend/app/Http/Controllers/OutfitChatController.php:208-218 | sets `assistant_text` on the last record and appends the assistant's first message |
| ChatSession.ChatController.OpenSession | backend/app/Http/Controllers/OutfitChatController.php:138-164 | creates the session, writes its detected rows and closes the record `completed` linked to it; when a label throws the record stays `processing` and there are no summaries |
| ChatSession.ChatController.Greet | backend/app/Http/Controllers/OutfitChatController.php:166-218 | stores the user's opening and its image attachment and finds the answer; unless that throws, records it as `assistant_text` and stores the assistant's message |
| ChatSession.ChatController.Begin | backend/app/Http/Controllers/OutfitChatController.php:138-230 | after a successful analysis: the session, its rows and the completed record; a label that throws stops it there (record `processing`, no messages); otherwise the user's opening with its attachment and, unless the fallback throws, the assistant's message and `assistant_text`; the answer is the 201 or the uncaught error |
| ChatSession.ChatController.Analyze | backend/app/Http/Controllers/OutfitChatController.php:65-230 | `analyze`: one new record ending as `ChatRecord`; a failure adds no session, messages or rows and answers the mapped status; a success adds exactly what `Begin` says |
| ChatSession.ChatController.MarkFailed | backend/app/Http/Controllers/OutfitChatController.php:329-335 | the retried message's meta gets the failure keys, and nothing else changes |
| ChatSession.ChatController.RecordFailure | backend/app/Http/Controllers/OutfitChatController.php:299-345 | the `catch` block leaves the tables as `AnswerFailed` says |
| ChatSession.ChatController.RecordReply | backend/app/Http/Controllers/OutfitChatController.php:347-379 | the success path leaves the tables as `AnswerReplied` says |
| ChatSession.ChatController.StoreMessage | backend/app/Http/Controllers/OutfitChatController.php:232-380 | `storeMessage`, run step by step on the session table, leaves the session, the messages and the answer that `StoreMessageOf` describes |
| Wardrobe.FalsyCategory | backend/app/Http/Controllers/WardrobeItemController.php:185-189 | a null, empty or "0" category gives the key `label\|` |
| Wardrobe.LowerTruthy | backend/app/Http/Controllers/WardrobeItemController.php:184-185 | lower-casing is idempotent and never changes whether a category is truthy |
| Wardrobe.KeyIgnoresCase | backend/app/Http/Controllers/WardrobeItemController.php:184-187 | labels and categories that differ only in letter case give the same key |
| Wardrobe.LabelPartRun | backend/app/Http/Controllers/WardrobeItemController.php:184-186 | a whitespace run between two words of a label becomes one space in the key |
| Wardrobe.KeyIgnoresRuns | backend/app/Http/Controllers/WardrobeItemController.php:184-187 | labels that differ only in the length or kind of an internal whitespace run give the same key |
| Wardrobe.KeyRoundTrip | backend/app/Http/Controllers/WardrobeItemController.php:182-190 | when the label half holds no `\|`, the key splits back at its first `\|` into the label half and the category half |
| Wardrobe.KeyDecides | backend/app/Http/Controllers/WardrobeItemController.php:182-190 | two keys whose label halves hold no `\|` are equal exactly when their label halves and their category halves agree |
| Wardrobe.FindKey | backend/app/Http/Controllers/WardrobeItemController.php:63-67 | finds an item of that user with that key, and none exactly when the user has no such item |
| Wardrobe.IndexOfId | backend/app/Http/Controllers/WardrobeItemController.php:123 | finds the item with that id, and none exactly when there is no such item |
| Wardrobe.FindDetected | backend/app/Http/Controllers/WardrobeItemController.php:44-47 | finds a detected item with that id owned by the requester, and none exactly when there is none |
| Wardrobe.InputText | backend/app/Http/Controllers/WardrobeItemController.php:89-91 | `(string)` of an input that is no array: a string is itself, and the text is empty exactly for null, false and "" |
| Wardrobe.CategoryInput | backend/app/Http/Controllers/WardrobeItemController.php:90-91 | `$category === null ? null : (string) $category`: null exactly for a null input, else the cast text |
| Wardrobe.DetectedCategory | backend/app/Http/Controllers/WardrobeItemController.php:54 | a copied category is truthy (a falsy one becomes null) |
| Wardrobe.DetectedColors | backend/app/Http/Controllers/WardrobeItemController.php:55 | copied colours are an array (anything else becomes null) |
| Wardrobe.DetectedCover | backend/app/Http/Controllers/WardrobeItemController.php:56-59 | a copied cover path is non-empty (an empty one becomes null) |
| Wardrobe.FindOrNew | backend/app/Http/Controllers/WardrobeItemController.php:63-74 | `firstOrCreate`: the user's existing item with the canonical key (not created), or, exactly when there is none, a new item with the next id and the given columns |
| Wardrobe.StoreOf | backend/app/Http/Controllers/WardrobeItemController.php:37-121 | `store` answers 404 exactly when the raw `detected_item_id` is truthy and no detected item of the requester has its `(int)` cast as id; on the manual path, an array `label` or `category` throws the cast error; 422 exactly for a blank manual label; otherwise an item of the requester, keyed by the cast label and category on the manual path |
| Wardrobe.TruthyZeroIdNotFound | backend/app/Http/Controllers/WardrobeItemController.php:41-51 | a truthy `detected_item_id` whose `(int)` cast is 0 (`"abc"`, `"0.0"`) takes the detected path and, as row ids start at 1, is answered 404 |
| Wardrobe.UpdateOf | backend/app/Http/Controllers/WardrobeItemController.php:123-168 | `update` decides in the order 404, cast error, 422, 409, 200, each an if-and-only-if: 404 exactly for a missing or foreign item; the cast error exactly for an owned item and an array `label`; 422 exactly for an owned item whose trimmed label is empty or over 64 characters; 409 exactly for an owned item with a valid label whose new key another item of the user holds; otherwise success, which changes only the label (to the trimmed one) and the key (recomputed) |
| Wardrobe.WardrobeTable.constructor | backend/database/migrations/0001_01_01_000009_create_wardrobe_tables.php:37 | the table starts empty, satisfying the unique index |
| Wardrobe.WardrobeTable.FirstOrCreate | backend/app/Http/Controllers/WardrobeItemController.php:63-74 | appends the new item only when it was created, keeping the unique index |
| Wardrobe.WardrobeTable.Store | backend/app/Http/Controllers/WardrobeItemController.php:37-121 | answers `StoreOf` and grows the table by exactly the created item, keeping the unique index |
| Wardrobe.WardrobeTable.Update | backend/app/Http/Controllers/WardrobeItemController.php:123-168 | answers `UpdateOf` and changes only the renamed item, keeping the unique index |
| Wardrobe.WardrobeTable.Destroy | backend/app/Http/Controllers/WardrobeItemController.php:170-180 | 404 with nothing deleted for a missing or foreign item; otherwise 204 and exactly that row goes |
| Wardrobe.InsertKeeps | backend/database/migrations/0001_01_01_000009_create_wardrobe_tables.php:37 | inserting an item with a fresh key and the next id keeps `(user_id, canonical_key)` unique |
| Wardrobe.RenameKeeps | backend/app/Http/Controllers/WardrobeItemController.php:142-153 | renaming to a key no other item of the user has keeps the keys unique |
| Wardrobe.RemovalKeeps | backend/app/Http/Controllers/WardrobeItemController.php:177 | deleting a row keeps the table well-formed and removes exactly the row with that id |
| Wardrobe.FindKeyAppend | backend/app/Http/Controllers/WardrobeItemController.php:63-67 | an item appended for a fresh key is the one found afterwards |
| Wardrobe.StoreTwice | backend/app/Http/Controllers/WardrobeItemController.php:97-120 | after an item is created, a second store with the same canonical key (other case or spacing) gets that item back, not created |
| Wardrobe.RenameKeepingKey | backend/app/Http/Controllers/WardrobeItemController.php:142-153 | renaming an item to a label with its current key never clashes with itself |
| Wardrobe.DestroyFreesKey | backend/app/Http/Controllers/WardrobeItemController.php:177 | after deletion the user has no item with the deleted key, so storing it creates a new item |
| AiPreferences.KeysDistinct | backend/app/Http/Controllers/AIPreferencesController.php:9-18 | the whitelist has eight distinct keys |
| AiPreferences.DigitRun | backend/app/Http/Controllers/AIPreferencesController.php:44 | the leading digit run of a numeric string stops at the first non-digit |
| AiPreferences.Exponent | backend/app/Http/Controllers/AIPreferencesController.php:44 | the exponent part of a numeric string: empty (exponent 0), or `e`/`E`, an optional sign and at least one digit making up the whole rest |
| AiPreferences.Unsigned | backend/app/Http/Controllers/AIPreferencesController.php:44-48 | the unsigned part of a numeric string is never empty |
| AiPreferences.UnsignedDigits | backend/app/Http/Controllers/AIPreferencesController.php:44-48 | a plain run of digits is numeric and casts to its decimal value |
| AiPreferences.IntStringNumeric | backend/app/Http/Controllers/AIPreferencesController.php:44-48 | the decimal rendering of any integer is numeric and casts back to that integer |
| AiPreferences.NumericString | backend/app/Http/Controllers/AIPreferencesController.php:44-48 | `is_numeric` then `(int)` on a string: a blank string is never numeric |
| AiPreferences.NumericValue | backend/app/Http/Controllers/AIPreferencesController.php:44-48 | an integer is taken as it is; null, booleans and arrays are skipped |
| AiPreferences.NonNumericExamples | backend/app/Http/Controllers/AIPreferencesController.php:44 | `"12abc"`, `""`, null and any array fail `is_numeric` |
| AiPreferences.NonNumericSkipped | backend/app/Http/Controllers/AIPreferencesController.php:39-46 | a value that fails the numeric test leaves its key out of the stored map |
| AiPreferences.EntryFor | backend/app/Http/Controllers/AIPreferencesController.php:39-56 | the entry written for a key: absent exactly when the key is missing or its value not numeric, otherwise that key with an integer in 0..100 |
| AiPreferences.CleanFor | backend/app/Http/Controllers/AIPreferencesController.php:37-57 | the map after visiting some keys has no more entries than keys visited |
| AiPreferences.Sanitize | backend/app/Http/Controllers/AIPreferencesController.php:37-57 | the stored map has at most eight entries |
| AiPreferences.Clamp | backend/app/Http/Controllers/AIPreferencesController.php:48-54 | the in-place clamp: below 0 becomes 0, above 100 becomes 100, 0..100 is unchanged |
| AiPreferences.CleanForShape | backend/app/Http/Controllers/AIPreferencesController.php:38-57 | every entry the loop writes is a visited key with an integer in 0..100 |
| AiPreferences.CleanForGet | backend/app/Http/Controllers/AIPreferencesController.php:38-57 | a visited key is stored exactly when it was sent with a numeric value, which is stored clamped |
| AiPreferences.SanitizeShape | backend/app/Http/Controllers/AIPreferencesController.php:37-57 | only whitelisted keys are stored, no key twice, each with an integer in 0..100 |
| AiPreferences.CleanForDistinct | backend/app/Http/Controllers/AIPreferencesController.php:38-56 | the loop visits distinct keys, so no key is written twice |
| AiPreferences.SanitizeGet | backend/app/Http/Controllers/AIPreferencesController.php:38-56 | for a whitelisted key, absent and non-numeric values are skipped and a numeric `n` is stored as `Clamp(n)`; any other key is never stored |
| AiPreferences.SanitizeKeepsInRange | backend/app/Http/Controllers/AIPreferencesController.php:48-56 | an integer already in 0..100 is stored unchanged |
| AiPreferences.CleanForLookups | backend/app/Http/Controllers/AIPreferencesController.php:38-43 | the stored map depends only on what the whitelisted keys look up to |
| AiPreferences.SanitizeIdempotent | backend/app/Http/Controllers/AIPreferencesController.php:37-57 | sending the stored map back stores the same map |
| AiPreferences.Clean | backend/app/Http/Controllers/AIPreferencesController.php:37-57 | the foreach over the keys, with `$num` clamped in place, builds exactly `Sanitize` |
| AiPreferences.FreshKey | backend/app/Http/Controllers/AIPreferencesController.php:56 | the key the loop is about to write is not yet in the map, so `$clean[$key] = $num` appends |
| AiPreferences.User.constructor | backend/app/Http/Controllers/AIPreferencesController.php:59 | the user holds the stored preferences |
| AiPreferences.User.UpdatePreferences | backend/app/Http/Controllers/AIPreferencesController.php:29-66 | a missing, empty or non-array `preferences` answers 422 and stores nothing; otherwise the sanitised map replaces the stored one entirely and is returned with 200 |
| PreferencesPage.Clamp01 | frontend/src/pages/AIPreferencesPage.jsx:7-12 | `clamp01`: NaN and negatives give 0, values above 100 (and +Infinity) give 100, 0..100 is unchanged; the result is always in 0..100 |
| PreferencesPage.ArrowStep | frontend/src/pages/AIPreferencesPage.jsx:243-252 | an arrow key moves an in-range value by one and stops at 0 and 100 |
| PreferencesPage.ToNumber | frontend/src/pages/AIPreferencesPage.jsx:62 | `Number(v)`: an array converts through its comma-joined text, an object is NaN, a number is itself |
| PreferencesPage.ArrayToNumber | frontend/src/pages/AIPreferencesPage.jsx:62 | with JavaScript's reading of `''` and of a number's text, `Number([])` is 0 and `Number([x])` is `x` |
| PreferencesPage.KeyNames | frontend/src/pages/AIPreferencesPage.jsx:128-137 | the `key === '...'` chain recognises each of the ten key names as its own key, and nothing else |
| PreferencesPage.Tier | frontend/src/pages/AIPreferencesPage.jsx:160-162 | a value falls in one of three thirds: below 34, below 67, otherwise (NaN included) |
| PreferencesPage.LabelFor | frontend/src/pages/AIPreferencesPage.jsx:125-140 | `labelFor` is `''` exactly for unknown keys; otherwise the first, second or third label for values below 34, below 67, or neither |
| PreferencesPage.OptionIdFor | frontend/src/pages/AIPreferencesPage.jsx:156-163 | `optionIdFor` is `''` exactly for unknown keys |
| PreferencesPage.ChoiceIds | frontend/src/pages/AIPreferencesPage.jsx:142-152 | every key has three presets, none with an empty id |
| PreferencesPage.FindLabel | frontend/src/pages/AIPreferencesPage.jsx:266 | `find` returns the caption of an option with that id, and nothing exactly when no option has it |
| PreferencesPage.ChoicesShape | frontend/src/pages/AIPreferencesPage.jsx:142-152 | every key has three presets with distinct ids at the values 15, 50 and 85 |
| PreferencesPage.CaptionsAreLabels | frontend/src/pages/AIPreferencesPage.jsx:125-152 | the presets' captions are, in order, the three labels `labelFor` picks from |
| PreferencesPage.FindLabelAt | frontend/src/pages/AIPreferencesPage.jsx:266 | with no earlier option sharing its id, `find` returns that option's own caption |
| PreferencesPage.PresetRoundTrip | frontend/src/pages/AIPreferencesPage.jsx:142-163 | every preset value (15, 50, 85) maps back to its own option id |
| PreferencesPage.OptionIdTier | frontend/src/pages/AIPreferencesPage.jsx:156-163 | `optionIdFor` is `''` exactly for unknown keys, and otherwise the id of the option in the value's third |
| PreferencesPage.DropdownShowsLabel | frontend/src/pages/AIPreferencesPage.jsx:125-163 | for all ten keys and every value, the dropdown's caption equals `labelFor` of the same value |
| PreferencesPage.LoadPrefs | frontend/src/pages/AIPreferencesPage.jsx:14-24 | `loadPrefs` always has every default key; a missing or empty store gives the defaults, and only a parsed object or array can give anything else |
| PreferencesPage.LoadPrefsMerge | frontend/src/pages/AIPreferencesPage.jsx:14-24 | a stored object overrides the defaults key by key; missing keys keep their defaults and no other key appears |
| PreferencesPage.LoadPrefsFallback | frontend/src/pages/AIPreferencesPage.jsx:14-24 | a missing, empty, unparsable or non-object store yields exactly the defaults |
| PreferencesPage.DivHundred | frontend/src/pages/AIPreferencesPage.jsx:78 | the division that rounds the far end of the track gives 100 |
| PreferencesPage.DivBelow | frontend/src/pages/AIPreferencesPage.jsx:78 | the rounding division stays below its bound |
| PreferencesPage.DragValue | frontend/src/pages/AIPreferencesPage.jsx:77-78 | the dragged value lies in 0..100; a position at or left of the track's left end gives 0, one at or right of its right end gives 100 |
| PreferencesPage.Page.constructor | frontend/src/pages/AIPreferencesPage.jsx:43-51 | `prefs` starts as `loadPrefs(defaults)` with no drag in progress, the drag record at left 0, width 1, saved user-select `''` and last touch 0 |
| PreferencesPage.Page.SetPref | frontend/src/pages/AIPreferencesPage.jsx:61-63 | `setPref` changes only that key, to `clamp01` of the value |
| PreferencesPage.Page.Arrow | frontend/src/pages/AIPreferencesPage.jsx:243-252 | ArrowLeft/ArrowRight write `clamp01(Number(value) ∓ 1)` to that key only; the drag record and the body's user-select are unchanged |
| PreferencesPage.Page.PickPreset | frontend/src/pages/AIPreferencesPage.jsx:280-281 | picking a preset stores its value, and the dropdown then selects that same preset; nothing else changes |
| PreferencesPage.Page.BeginDrag | frontend/src/pages/AIPreferencesPage.jsx:65-80 | without a track nothing changes; otherwise the user-select is saved and set to `none`, the drag record takes the key, the track's left and its width (at least 1), a touch records its time, and the rounded value under the cursor is written |
| PreferencesPage.Page.MouseDown | frontend/src/pages/AIPreferencesPage.jsx:176-182 | a mouse-down with any button but the primary one, or within 800 ms of the last touch start, changes nothing; otherwise it begins a mouse drag, leaving the touch time as it was |
| PreferencesPage.Page.EndDrag | frontend/src/pages/AIPreferencesPage.jsx:82-86 | with no active drag nothing changes; otherwise the saved user-select is restored and the drag cleared; `prefs`, the track geometry, the saved user-select and the touch time never change |
| PreferencesPage.Page.Move | frontend/src/pages/AIPreferencesPage.jsx:89-104 | a cursor move during a drag writes the value under the cursor to the dragged key; with no drag active or no cursor position nothing changes; the drag record, the touch time and the user-select are kept |
| WardrobePage.SentenceCase | frontend/src/pages/WardrobePage.jsx:33-38 | `sentenceCase` is empty exactly for a blank value; otherwise it has the trimmed value's length, its first character is the lower-cased first character upper-cased, and the rest is the lower-cased rest |
| WardrobePage.LowerUpper | frontend/src/pages/WardrobePage.jsx:36-37 | lower-casing a character after upper-casing its lower-case form gives that lower-case form back |
| WardrobePage.SentenceCaseIdempotent | frontend/src/pages/WardrobePage.jsx:33-38 | a category title passed through `sentenceCase` twice is the same as once |
| WardrobePage.Normalized | frontend/src/pages/WardrobePage.jsx:41 | the normal form is empty exactly for a blank name; it has no upper-case letter and no whitespace at either end |
| WardrobePage.Squeeze | frontend/src/pages/WardrobePage.jsx:79 | no whitespace is left, and the result is never longer than the name |
| WardrobePage.SqueezeAppend | frontend/src/pages/WardrobePage.jsx:79 | the global replace works piece by piece: the squeeze of a concatenation is the concatenation of the squeezes, so the other characters keep their order |
| WardrobePage.SqueezeOne | frontend/src/pages/WardrobePage.jsx:79 | one character is dropped exactly when it is whitespace |
| WardrobePage.SqueezeNoSpace | frontend/src/pages/WardrobePage.jsx:79 | a name without whitespace is left as it is by the whitespace removal |
| WardrobePage.LowerNoUpper | frontend/src/pages/WardrobePage.jsx:41 | a name without upper-case letters is left as it is by `toLowerCase` |
| WardrobePage.PlainName | frontend/src/pages/WardrobePage.jsx:41-80 | a name of lower-case letters and `_` is its own normal form and its own table key |
| WardrobePage.PlainNotCss | frontend/src/pages/WardrobePage.jsx:44-46 | such a name never takes the early return for `#`, `rgb(`, `rgba(`, `hsl(` or `hsla(` |
| WardrobePage.InheritedNotInPalette | frontend/src/pages/WardrobePage.jsx:48-77 | none of the lower-case `Object.prototype` member names is one of the 28 colour names of the table |
| WardrobePage.InheritedKeyFinding | frontend/src/pages/WardrobePage.jsx:79-80 | as written, a colour named like an `Object.prototype` member yields that inherited member rather than a string, while the own-key lookup yields the name itself |
| WardrobePage.ColorToCss | frontend/src/pages/WardrobePage.jsx:40-81 | `colorToCss` gives null exactly for a blank name |
| WardrobePage.ColorToCssSyntax | frontend/src/pages/WardrobePage.jsx:44-46 | a name already in CSS colour syntax comes back as its trimmed, lower-cased form |
| WardrobePage.ColorToCssNamed | frontend/src/pages/WardrobePage.jsx:48-80 | any other non-blank name gives the table's hex when its squeezed form is a key of the table, and otherwise its trimmed, lower-cased form |
| WardrobePage.OnlyKeysMapToTable | frontend/src/pages/WardrobePage.jsx:79-80 | a result that is a table colour other than the normal form arises only when the squeezed name is a table key, and is that key's colour |
| WardrobePage.ColorToCssAsWritten | frontend/src/pages/WardrobePage.jsx:40-81 | as written, the result is null exactly when the own-key version's is; where it is a string it is the same string; otherwise it is an inherited member whose name is one of the prototype's, where the own-key version gives the normal form |
| WardrobePage.PaletteHex | frontend/src/pages/WardrobePage.jsx:48-77 | every table colour is `#` followed by six lower-case hex digits |
| WardrobePage.NormalizedIdempotent | frontend/src/pages/WardrobePage.jsx:41 | trimming and lower-casing a normalised name changes nothing |
| WardrobePage.PaletteFixpoint | frontend/src/pages/WardrobePage.jsx:44-80 | a table colour fed back into `colorToCss` comes back unchanged |
| WardrobePage.ColorToCssFixpoint | frontend/src/pages/WardrobePage.jsx:40-81 | every non-null result of `colorToCss` is a fixed point of it |
| WardrobePage.ColorToCssIgnoresCase | frontend/src/pages/WardrobePage.jsx:40-81 | names that differ only in letter case get the same colour |
| WardrobePage.FirstRule | frontend/src/pages/WardrobePage.jsx:102-117 | the chosen rule matches the text and no rule tried before it does; no choice means no rule matches |
| WardrobePage.ShoeWordsFirst | frontend/src/pages/WardrobePage.jsx:102 | any text with a shoe word gets the shoe icon, whatever else it says |
| WardrobePage.ShirtFallback | frontend/src/pages/WardrobePage.jsx:119 | text that no rule matches gets the shirt icon |
| WardrobePage.ContainsInner | frontend/src/pages/WardrobePage.jsx:116-117 | text containing a word contains every piece of that word (so "earring" text contains "ring") |
| WardrobePage.EarringNeverGem | frontend/src/pages/WardrobePage.jsx:116-117 | as written, an item whose text contains "earring" never gets the gem icon |
| WardrobePage.EarringIsGem | frontend/src/pages/WardrobePage.jsx:105-117 | with the jewellery rule tried before the ring rule, an earring that matches no earlier garment rule gets the gem icon |
| WardrobePage.IconBy | frontend/src/pages/WardrobePage.jsx:102-119 | the icon is that of the first rule whose words occur in the text, or the shirt when none does |
| WardrobePage.PickIcon | frontend/src/pages/WardrobePage.jsx:97-120 | `pickIcon` gives the icon of the first of its thirteen rules that matches `category label`, lower-cased, or the shirt |
| WardrobePage.PickIconCorrected | frontend/src/pages/WardrobePage.jsx:97-120 | the same with the jewellery rule tried before the ring rule |
| WardrobePage.IconBySamePrefix | frontend/src/pages/WardrobePage.jsx:102-119 | two rule lists that match the same positions with the same icons pick the same icon |
| WardrobePage.CorrectionOnlyJewellery | frontend/src/pages/WardrobePage.jsx:116-117 | reordering the two rules changes the icon only for text with a jewellery word |
| WardrobePage.CategoryOf | frontend/src/pages/WardrobePage.jsx:125 | an item's group key is never empty (a missing or empty category is `other`) |
| WardrobePage.InCategory | frontend/src/pages/WardrobePage.jsx:124-128 | a category's list holds exactly the items with that key |
| WardrobePage.InCategorySnoc | frontend/src/pages/WardrobePage.jsx:124-128 | one more item extends exactly its own category's list, at the end |
| WardrobePage.InCategoryNone | frontend/src/pages/WardrobePage.jsx:124-128 | a category no item has gets an empty list |
| WardrobePage.StrLtIrreflexive | frontend/src/pages/WardrobePage.jsx:129 | the key order never puts a key before itself |
| WardrobePage.StrLtTotal | frontend/src/pages/WardrobePage.jsx:129 | of two different keys one comes first |
| WardrobePage.StrLtTrans | frontend/src/pages/WardrobePage.jsx:129 | the key order is transitive |
| WardrobePage.InsertGroup | frontend/src/pages/WardrobePage.jsx:129 | inserting an entry with a new key into a key-sorted list keeps it sorted and adds just that entry |
| WardrobePage.SortGroups | frontend/src/pages/WardrobePage.jsx:129 | the sort of entries with distinct keys gives a key-sorted list of the same entries |
| WardrobePage.KeyIndex | frontend/src/pages/WardrobePage.jsx:126 | `byCat.has(cat)`: the position of the entry with that key, or no position exactly when no entry has it |
| WardrobePage.CategoriesSnoc | frontend/src/pages/WardrobePage.jsx:124-128 | one more item adds just its own category to the set of keys |
| WardrobePage.BucketPush | frontend/src/pages/WardrobePage.jsx:127 | pushing an item onto its existing key keeps the map a first-seen-order bucketing of the items so far |
| WardrobePage.KeySetUpdate | frontend/src/pages/WardrobePage.jsx:127 | replacing an entry's list keeps the set of keys |
| WardrobePage.BucketNew | frontend/src/pages/WardrobePage.jsx:126-127 | adding a new key with the item keeps the map a bucketing of the items so far |
| WardrobePage.Grouped | frontend/src/pages/WardrobePage.jsx:122-130 | `grouped` has one entry per category, keys in ascending order, each holding exactly that category's items in list order |
| WardrobePage.KeyHead | frontend/src/pages/WardrobePage.jsx:129 | the first entry's key is a key of the list |
| WardrobePage.KeySetTail | frontend/src/pages/WardrobePage.jsx:129 | in a key-sorted list, the keys after the first are all keys but the first |
| WardrobePage.SortedKeysUnique | frontend/src/pages/WardrobePage.jsx:129 | two key-sorted lists with the same keys list them in the same order |
| WardrobePage.GroupsUnique | frontend/src/pages/WardrobePage.jsx:122-130 | the grouping is fully determined by the items |
| WardrobePage.EveryItemListed | frontend/src/pages/WardrobePage.jsx:122-130 | every item appears in the entry of its category and no entry is empty |
| WardrobePage.ActiveIsCategory | frontend/src/pages/WardrobePage.jsx:132-136 | opening a category lists exactly that category's items in list order |
| WardrobePage.Shown | frontend/src/pages/WardrobePage.jsx:378 | an overview card shows a prefix of at most three items, the whole list exactly when it has at most three |
| WardrobePage.ViewAll | frontend/src/pages/WardrobePage.jsx:381-385 | the "View all" button appears exactly when the card leaves items out |
| WardrobePage.Utf16Length | frontend/src/pages/WardrobePage.jsx:190 | a JavaScript length counts each character once or twice |
| WardrobePage.AcceptedNamePassesServer | frontend/src/pages/WardrobePage.jsx:185-199 | a name the page sends is trimmed already for the server, non-empty and at most 64 characters, so the rename is never refused with 422 |
| WardrobePage.BlankNameRefused | frontend/src/pages/WardrobePage.jsx:185-189 | "Name is required." is shown exactly for a blank value |
| WardrobePage.RemoveById | frontend/src/pages/WardrobePage.jsx:160 | the filter keeps exactly the items with another id |
| WardrobePage.RemoveAppend | frontend/src/pages/WardrobePage.jsx:160 | the filter works piece by piece, so the kept items stay in their order |
| WardrobePage.RemoveOne | frontend/src/pages/WardrobePage.jsx:160 | one item is dropped exactly when it has the removed id |
| WardrobePage.RemoveKeepsGroups | frontend/src/pages/WardrobePage.jsx:160 | removing an item changes only its own category's list, by removing it there |
| WardrobePage.RenameById | frontend/src/pages/WardrobePage.jsx:216 | the map renames exactly the items with the updated id and keeps every other item and the order |
| WardrobePage.RenameSnoc | frontend/src/pages/WardrobePage.jsx:216 | renaming a list with one more item renames the list and that item |
| WardrobePage.RenameKeepsGroups | frontend/src/pages/WardrobePage.jsx:216 | renaming keeps each category's items in the same places |
| WardrobePage.FailureMessage | frontend/src/pages/WardrobePage.jsx:155-164 | the error shown after a failed request is never empty: the server's message, or the fallback |
| WardrobePage.Page.constructor | frontend/src/pages/WardrobePage.jsx:24-31 | the page starts with no items, no error and nothing being removed, edited or saved |
| WardrobePage.Page.StartRemove | frontend/src/pages/WardrobePage.jsx:138-144 | a removal starts exactly for an item with an id, with a session, while no other removal runs; it clears the error and marks the item in flight, and changes nothing else |
| WardrobePage.Page.FinishRemove | frontend/src/pages/WardrobePage.jsx:146-166 | an ok or 204 answer removes the item from the list; any other answer or a thrown error keeps the list and shows the message; the in-flight mark is cleared either way |
| WardrobePage.Page.StartEdit | frontend/src/pages/WardrobePage.jsx:169-173 | editing an item clears the error and loads its name into the edit field |
| WardrobePage.Page.CancelEdit | frontend/src/pages/WardrobePage.jsx:175-178 | cancelling clears the edit state and nothing else |
| WardrobePage.Page.StartSave | frontend/src/pages/WardrobePage.jsx:180-197 | a rename is sent exactly when the guards pass and the trimmed name is non-empty and at most 64 long, and then it is the trimmed name; a refused name shows its message |
| WardrobePage.Page.FinishSave | frontend/src/pages/WardrobePage.jsx:198-224 | an ok answer renames the returned item and closes the editor; a failure keeps the list and the editor and shows the message; the saving mark is cleared either way |

## Left out

- HTTP, file storage and timestamps. The Gemini request, the URL with the API key, base64 image encoding, `Storage` URLs and `now()` are not modelled. A response is abstracted to its status and decoded body, and timestamps are dropped from the records.
- JSON and number parsing. `json_decode`, `JSON.parse` and JavaScript's StringToNumber are function parameters, so no parser is modelled. `json_encode` of the chat context is folded into the `post` parameter. Decoded values have no floats.
- Floats. A `[0-9.]+` delay is read as an exact fraction and its ceiling is exact. A capture with several dots is read only up to its second dot, as `(float)` does. JavaScript numbers on the preferences page are integers plus NaN and the two infinities. Drag positions are whole pixels, and `Math.round` is computed exactly.
- AiPreferences.NumericValue: `(int)` of a numeric string is computed exactly. For strings beyond 64-bit or double precision, such as `"1e30"` or `"0.99999999999999999"`, PHP's float conversion can give another integer before the clamp.
- 64-bit integer overflow. Ids, turn counts and scores are unbounded integers, and nothing in these rules comes near the limits.
- Success status. Laravel's `$res->ok()` is exactly status 200, so a 201 or 204 from Gemini counts as a failure, as the code does.
- Concurrency. Requests are modelled one at a time. The read, check and increment of `turns_used` has no lock in the source, and no claim is made about concurrent requests.
- Exceptions. `storeMessage` catches only `RuntimeException`, which is what `Failure` stands for. Other throwables propagate and are out of scope. `analyze` and `store` catch every throwable. There, the `TypeError` that `count()` throws on a non-array list is modelled as one fixed message, `CountError`.
- Array-to-string casts. PHP's "Array to string conversion" is modelled as an exception with one fixed message, `ArrayToString`, wherever the code casts a value that can be an array: the detected labels, the vision `description`, the context feedback rows, and the `label` and `category` inputs of the wardrobe's `store` and `update`. Inside the `try` blocks of `analyze` and `store` it becomes a 502. Outside them, in `persistDetectedItems` and the fallback reply, it escapes, and the answer is reduced to `ScanUncaught` or `AnalyzeUncaught`. The wardrobe has no `try`, and its answers are `StoreUncaught` and `UpdateUncaught`. The framework's 500 body is not modelled.
- ChatSession.IsFailed: a message whose meta `status` is an array counts as not failed, because its cast is treated as no string. Only the controller writes that meta, always with a string status, so the case cannot arise from the modelled operations.
- Attachments. The opening attachment records its session, message, kind and path. Its MIME type and size come from the upload and are not modelled.
- ChatSession.ChatController.StoreMessage: the session is one of the table's rows. The route binding's 404 for a missing session is framework code.
- Framework validation. `FormRequest` rules are not modelled, including the required `content` and `retry_message_id` types and the image upload. Each operation starts from a request that passed them. The one exception is the `preferences` rule of `AIPreferencesController::update` (required, an array): its 422 is modelled by `AiPreferences.User.UpdatePreferences`.
- Turn limit. `storeMessage` refuses a session when `turns_used >= 10` and does not look at `status`. The model follows the code.
- The retried chat message. A failed message stays among the session's rows while it is retried. When it is one of the latest twelve, it takes one of the window's twelve places before the failed messages are filtered out. The model keeps this behaviour.
- Context feedback. `GeminiChatService` defines no `contextFeedback` method: its only methods are `reply` and `buildModelFallbackList`. So the calls in `store` and `analyze` always throw an `Error`, which `catch (\Throwable)` swallows, and `context_feedback` is always `[]`. The model keeps the call's outcome as a parameter, and it never decides success. With the source as it stands, the array throw in `ChatSession.ContextLines` cannot arise.
- Session fields. The session's `title` and `intake` and the chat payload's intake and `ai_preferences` are not modelled. These are only passed through. The process record's `assistant_text` is modelled.
- Read endpoints and serialisers. `OutfitChatController::index`, `show`, `serializeSession` and `serializeMessage`, `WardrobeItemController::index` and `AIPreferencesController::show` only read and format rows.
- Wardrobe PATCH route. No PATCH route for the wardrobe update is registered, although the page sends one. `WardrobeItemController::update` is modelled as written, and the page's rename flow is modelled against an abstract response.
- Letter case. Upper- and lower-casing (`mb_strtolower`, `toLowerCase`, `toUpperCase`, `ucfirst`) are modelled on ASCII letters only.
- Sort order. `localeCompare` is modelled as code-point order (`WardrobePage.StrLt` compares Unicode scalar values). A locale's collation can order some keys differently. Code-point order also differs from UTF-16 code-unit order when a character in U+E000 to U+FFFF meets one outside the Basic Multilingual Plane: code units put `😀` before `！` (U+FF01), and the model puts it after.
- Name length. The page checks names with the JavaScript `length` in UTF-16 units, and the server uses `mb_strlen` in characters. Only the direction "accepted by the page ⇒ accepted by the server" is proved. A name of 33 to 64 characters outside the Basic Multilingual Plane is refused by the page although the server would accept it.
- Storage side effects on the preferences page. Writing `prefs` to localStorage is not modelled. Nor is the native touch-listener wiring or which event (mouse or touch) reaches `onMove`.
- Notifications and rendering. The page's `onNotify` toasts, loading flags and JSX rendering are not modelled. The overview's three-item slice and the "View all" condition are.

## Findings

| source | as written | input that shows it | evidently intended | confidence | as-written member | corrected member |
|---|---|---|---|---|---|---|
| frontend/src/pages/WardrobePage.jsx:79-80 | `map[key] \|\| c` looks the key up on a plain object literal, so the names of `Object.prototype` members are found there too | a colour named `constructor`: the result is the `Object` constructor function, not a colour string | a name maps to hex only when, with its whitespace removed, it is one of the table's own keys; any other name comes back trimmed and lower-cased | not executed | WardrobePage.InheritedKeyFinding | WardrobePage.ColorToCss |
| frontend/src/pages/WardrobePage.jsx:116-117 | the `/(ring)/` rule is tried before the jewellery rule that lists `earring` | an item labelled `earring` (category `jewelry`): it gets the ring icon, never the gem | an earring gets the gem icon, like the other jewellery words | not executed | WardrobePage.EarringNeverGem | WardrobePage.EarringIsGem |
