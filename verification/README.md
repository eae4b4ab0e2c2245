# Translation cache and fallback layer of the e-learning app, in Dafny

This project models the automatic content-translation layer of the e-learning
application:

- `TranslationService` in `lib/translation.ts` is a process-wide memo table in front of
  the Google Cloud Translation v2 endpoint. It offers a single-text operation and a
  batch operation. Both short-circuit when no API key is configured or the source and
  target languages agree. Both answer cache hits locally, send the rest to the
  provider, cache what comes back, and degrade to the original text on any failure.
- The two HTTP routes (`POST /api/translate`, `POST /api/translate/batch`) validate
  the JSON body, default a falsy source language to `'en'`, and map outcomes to
  status codes 200, 400 and 500.
- The browser-side helpers `translateOnClient` and `batchTranslateOnClient` relay
  requests to those routes.
- The `LanguageProvider` context fans a text or a list out to the user's primary
  and secondary languages.

The model is functional. The cache is a `map<string, string>` inside a `Service`
value that every operation takes and returns. The provider is an oracle: each
operation receives the `ProviderReply` the provider would give (`ProviderFailure`
or `ProviderSuccess(translations)`). It reports the `ProviderCall` it made, or
`None` when it made no call, so "no provider call" is something a contract can
state. The browser helpers receive a `Delivery`: either a network error or the
route's `Response`. So a helper whose delivery is the route's own answer can be
composed with the route and the service (module `EndToEnd`).

Modules, one per concern of the source:

| file | module | source |
|---|---|---|
| `languages.dfy` | `Languages` | `SUPPORTED_LANGUAGES`, `LanguageCode` |
| `cache_keys.dfy` | `CacheKeys` | `getCacheKey` and its injectivity |
| `js_text.dfy` | `JsText` | `String.prototype.trim` and the truthiness of strings |
| `batch_slots.dfy` | `BatchSlots` | hit/miss bookkeeping of `translateBatch` (`results`, `uncachedTexts`, `translationIndex`) |
| `translation_service.dfy` | `TranslationService` | `TranslationService`, the `translationService` singleton |
| `service_properties.dfy` | `ServiceProperties` | properties that relate several service calls |
| `http.dfy` | `Http` | response shapes and JSON-field truthiness shared by the routes |
| `translate_route.dfy` | `TranslateRoute` | `app/api/translate/route.ts` |
| `batch_route.dfy` | `BatchTranslateRoute` | `app/api/translate/batch/route.ts` |
| `client_relay.dfy` | `ClientRelay` | `translateOnClient`, `batchTranslateOnClient` |
| `language_context.dfy` | `LanguageContext` | `translateText` / `translateBatch` of `contexts/LanguageContext.tsx` |
| `end_to_end.dfy` | `EndToEnd` | helper, route and service composed |
| `wrappers.dfy` | `Wrappers` | `Option` |

Three behaviours of the code worth knowing:

- A failed batch call returns the input list itself. At positions whose text was
  cached it gives the original text, not the cached translation
  (`ServiceProperties.FailedBatchDropsCachedAnswers`).
- The routes accept any non-empty target string, not only registry codes
  (`TranslateRoute.UnregisteredTargetAccepted`). A target that contains a colon
  therefore shares cache keys with other (target, text) pairs
  (`CacheKeys.ColonTargetCollides`). Registry codes never do
  (`CacheKeys.LanguageCacheKeyInjective`).
- A text that occurs twice among the misses of one batch is sent twice. Each
  position gets its own translation. The cache keeps the translation of the last
  occurrence (`TranslationService.WriteBackLastWins`).

## Model

| member | source | states |
|---|---|---|
| Languages.RegistryWellFormed | lib/translation.ts:3-24 | the registry holds twenty pairwise distinct two-letter lower-case codes, `en` among them |
| Languages.LanguageCodeHasNoColon | lib/translation.ts:3-26 | no `LanguageCode` contains the cache-key separator `:` |
| CacheKeys.SplitKey | lib/translation.ts:49-51 | cutting a key at its first colon fails exactly when the key has no colon; otherwise it yields a colon-free target and a text whose cache key is the key |
| CacheKeys.SplitCacheKey | lib/translation.ts:49-51 | for a colon-free target, splitting `target:text` gives back exactly (target, text) |
| CacheKeys.CacheKeyInjective | lib/translation.ts:49-51 | two keys with colon-free targets are equal only if their targets and texts are equal |
| CacheKeys.LanguageCacheKeyInjective | lib/translation.ts:49-51 | over registry languages, keys are equal if and only if target and text are both equal |
| CacheKeys.SameTargetKeyInjective | lib/translation.ts:49-51 | within one target, whatever it is, keys are equal if and only if the texts are equal |
| CacheKeys.ColonTargetCollides | lib/translation.ts:49-51 | a target containing a colon has a different (target, text) pair with the same key |
| JsText.Trim | lib/translation.ts:59 | `trim` yields a piece of the input with only whitespace cut around it, with no whitespace at either end; it is empty if and only if the input is all whitespace |
| BatchSlots.MissItems | lib/translation.ts:111-123 | the uncached list has one entry per miss, and the miss at rank k contributes the k-th entry |
| BatchSlots.Fill | lib/translation.ts:148-156 | filling keeps the length, keeps every hit's value, and gives the miss at rank k the k-th translation |
| TranslationService.NewService | lib/translation.ts:45-47 | the service starts with an empty cache; its key is empty exactly when the environment variable is unset or empty |
| TranslationService.ClearCache | lib/translation.ts:165-167 | after clearing, no (text, target) is cached; the key is kept |
| TranslationService.TranslateText | lib/translation.ts:53-99 | no key, a blank text or equal languages give the text back with no call and the cache unchanged; a hit gives the cached value with no call; the provider is called, with the text and both languages, exactly when none of these holds; its first translation is returned and cached under the text's key; a failure or an empty reply gives the text back with the cache unchanged; existing entries are never altered |
| TranslationService.WriteBack | lib/translation.ts:147-156 | the write-back adds exactly the keys of the missed texts to the cache |
| TranslationService.WriteBackKeepsOthers | lib/translation.ts:149-156 | entries whose key no miss carries keep their values |
| TranslationService.WriteBackLastWins | lib/translation.ts:149-156 | a missed text ends up cached with the translation of its last occurrence |
| TranslationService.TranslateBatch | lib/translation.ts:101-163 | the answer always has the input's length; no key or equal languages give the input back with no call; a call is made exactly when some text is uncached, and it carries exactly the uncached texts in input order; with no call, the cache answers every position; on success hits keep their cached values, the k-th miss gets the k-th translation, and the cache gains exactly the missed keys; on failure the input list comes back with the cache unchanged |
| ServiceProperties.TextWithoutCallIgnoresReply | lib/translation.ts:53-71 | when no provider call is made, the answer and the cache do not depend on the provider |
| ServiceProperties.RepeatedTextIsCacheHit | lib/translation.ts:67-94 | after a call answered by a working provider, the same call again returns the same text from the cache with no provider call, whatever the provider would now say |
| ServiceProperties.TextTouchesOnlyItsKey | lib/translation.ts:68-92 | translating one text into a registry language leaves every other (text, registry language) lookup unchanged |
| ServiceProperties.SingletonBatchMatchesText | lib/translation.ts:101-163 | for a non-blank text, a one-element batch gives the same answer and cache as the single path, and it calls the provider exactly when the single path does |
| ServiceProperties.SingletonMiss | lib/translation.ts:129-158 | an uncached one-element batch sends exactly that text; on success it returns and caches the first translation |
| ServiceProperties.BlankTextSentOnlyInBatches | lib/translation.ts:101-133 | an uncached whitespace-only text is sent to the provider by the batch path, while the single path returns it with no call |
| ServiceProperties.BatchAnswersAreCached | lib/translation.ts:115-156 | after a successful batch, a text with no later repeat is a cache hit whose value is the batch's answer at its position |
| ServiceProperties.AllCachedNeedsNoReply | lib/translation.ts:125-127 | a batch whose every text is cached has no misses |
| ServiceProperties.RepeatedBatchIsCacheHit | lib/translation.ts:111-158 | repeating a successful batch makes no call, leaves the cache alone, and answers every position with the first batch's answer at the last occurrence of its text (the same answer where the text is not repeated later) |
| ServiceProperties.OnlyMissesAreSent | lib/translation.ts:111-158 | with "A" and "C" cached, the batch ["A","B","C"] sends exactly ["B"] and answers in input order |
| ServiceProperties.FailedBatchDropsCachedAnswers | lib/translation.ts:159-162 | a failed batch answers with the original texts even where the cache holds a translation |
| TranslateRoute.Post | app/api/translate/route.ts:4-29 | 400 with "Missing required parameters" exactly when `text` or `targetLanguage` is falsy; 500 exactly when the body is not JSON or is `null`; otherwise 200 with the service's answer; a falsy source reaches the provider as `en`; rejected requests leave the cache alone |
| TranslateRoute.BlankTextEchoed | app/api/translate/route.ts:8-21 | the empty text is rejected with 400; a whitespace-only text comes back as it is, with no provider call and no cache change |
| TranslateRoute.UnregisteredTargetAccepted | app/api/translate/route.ts:8-13 | a non-empty target outside the registry is accepted |
| BatchTranslateRoute.Post | app/api/translate/batch/route.ts:4-29 | 400 exactly when `texts` is not an array or `targetLanguage` is falsy; 500 exactly when the body is not JSON or is `null`; otherwise 200 with the service's answer, one entry per input text; a falsy source reaches the provider as `en` |
| BatchTranslateRoute.EmptyBatchAccepted | app/api/translate/batch/route.ts:8-21 | an empty array is accepted and answered with an empty array, with no provider call |
| ClientRelay.TranslateOnClient | lib/translation.ts:173-193 | equal languages give the text with no request; otherwise one request with the text and both languages; the route's 2xx answer is returned; any failure gives the text back |
| ClientRelay.BatchTranslateOnClient | lib/translation.ts:196-216 | the same for lists: the input list on equal languages or on any failure |
| LanguageContext.TranslateText | contexts/LanguageContext.tsx:78-111 | the empty text gives `{}`, sends nothing and leaves `isTranslating` as it was; otherwise `primary` (`secondary`) is present exactly when that language is set, non-empty and not `en`, holds the relay's answer from English, and `isTranslating` ends false |
| LanguageContext.TranslateBatch | contexts/LanguageContext.tsx:113-146 | the same fan-out for lists, with the empty list giving `{}` |
| EndToEnd.ClientMatchesService | lib/translation.ts:173-193 | for a non-empty target, the client helper answered by the route returns what the service returns directly, and it changes the cache in the same way |
| EndToEnd.BatchClientMatchesService | lib/translation.ts:196-216 | the same for the batch helper and the batch route |
| EndToEnd.ContextBatchPrimaryMatchesService | contexts/LanguageContext.tsx:122-128 | the context's primary translation of a non-empty list, relayed through the batch route, is the service's batch translation from English into the primary language |
| EndToEnd.ContextPrimaryMatchesService | contexts/LanguageContext.tsx:87-93 | the context's primary translation, relayed through the route, is the service's translation from English into the primary language |

## Left out

- TranslationService.TranslateBatch: requires the provider to return at least one translation per uncached text it was sent. With fewer, the source stores `undefined` in the cache and the answer for the trailing misses, which a string model cannot represent. Extra translations are modelled: they are ignored.
- BatchTranslateRoute.Post: inherits the same requirement on the provider's reply.
- HTTP transport, `axios`, response-body parsing and `console` logging: the provider and the routes are oracle results (`ProviderReply`, `Delivery`). A provider call that throws (network error, non-2xx status, a body without a `data.translations` list) is `ProviderFailure`.
- Provider translations without a `translatedText` field: the source returns and caches `undefined` for them without throwing; the model's replies carry strings only.
- JSON fields of the wrong type: the routes are modelled with string fields that are missing or `null` (`None`), or present. For the batch route, `texts` is either missing or not an array (`None`), or an array of strings. A truthy non-string `text`, `targetLanguage` or `sourceLanguage`, or a non-string array element, is not modelled.
- JavaScript strings are UTF-16 code-unit sequences; the model uses sequences of Unicode scalar values. Every character `trim` strips lies in the Basic Multilingual Plane, so blankness is the same for every string both can represent.
- Concurrency: `Promise.all` in the context, concurrent requests racing for one cache slot, and one cache per worker process. Every call is sequential against one cache value, and the context's two relay requests each take their own `Delivery`.
- The context's `catch` blocks: the relay helpers never throw, so the caught error cannot occur and is not modelled.
- React state and effects, `localStorage`, and the preference load and save requests in `contexts/LanguageContext.tsx` (lines 28-76): these are I/O.
- UI components and pages, the language-preference and course-admin routes, `middleware.ts` (its matching is done by the auth library), `prisma/seed.js` and `types/index.ts`: they have no translation logic.
- The API key is read once from the environment (`NewService`); the environment itself is a parameter.
