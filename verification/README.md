# Google Slides translator: a Dafny model of its core

The system takes the URL of a Google Slides presentation, translates every
non-blank text run on every slide (English into Simplified Chinese, anything
else into English, or into a language the caller names), and writes the
translations back in place. The model covers its server endpoint
(`pages/api/translate.js`) and the client-side URL form
(`components/ui/prompt-input-box.js`). It has these modules:

- `JsString`: the JavaScript string operations the code relies on.
  - `trim`, with the ECMAScript whitespace set.
  - `includes` and `startsWith`.
- `PresentationId`: the server's URL parser. The regular expression is
  stated as "leftmost match, greedy capture".
- `Slides`: the part of the Slides API presentation resource that the
  endpoint reads. Lists the code guards before iterating become sequences.
  Fields it dereferences without a guard become `Option`s, because their
  absence throws.
- `TextExtraction`: `extractTextElements`, written as the nested walk the
  code performs. Its proved reference is a flat document-order list of text
  elements, filtered and trimmed.
- `GoogleApis`: the remote services, passed in as pure functions of their
  arguments. These are the presentation fetch, language detection,
  translation and the batch update.
- `Translation`: `detectLanguage`, `translateText` and the target-language
  policy, including their fallbacks on failure.
- `BatchUpdate`: `updateSlideText` and its `replaceAllText` requests.
- `TranslateHandler`:
  - the per-slide processing and the whole-presentation fan-out;
  - the access check;
  - the handler, with its 405, 400, 200 and 500 responses and its ordered
    mapping from error message to user message.
- `PromptInputBox`: the client validator and the submit and edit handlers.
- `Scenarios`: whole requests with concrete service answers.

Two behaviours of the code are modelled as written:

- A 403 from the access check does not produce the sharing-permission
  guidance.
  - The code throws a message that starts with a capital "Permission".
  - The handler tests for the lower-case substring "permission", so the
    caller gets the generic message (`Scenarios.AccessDeniedScenario`).
- A slide whose walk throws is reported as failed, with the `TypeError`
  message.
  - The throw is caught by the per-slide `catch`.
  - Its run carries no elements, no requests and no batch
    (`Scenarios.BrokenTableScenario`).

## Model

| member | source | states |
|---|---|---|
| JsString.Trim | pages/api/translate.js:182-185 | the trimmed text is empty, or it neither starts nor ends with a whitespace character |
| JsString.TrimIsFramed | pages/api/translate.js:182-185 | the trimmed text occurs inside the original, and only whitespace precedes and follows it there |
| JsString.TrimEmptyIffBlank | pages/api/translate.js:182 | `trim()` is falsy exactly when the content is all whitespace, so a run is skipped exactly when it is blank |
| JsString.TrimSurrounded | components/ui/prompt-input-box.js:16-27 | trimming whitespace padding off a text that has no whitespace at its ends recovers that text |
| JsString.TrimIdempotent | pages/api/translate.js:184 | trimming an already-trimmed text changes nothing |
| JsString.NotIncludedByPair | pages/api/translate.js:61-67 | `includes` is false when two adjacent characters of the searched text never meet in the message |
| PresentationId.ExtractPresentationId | pages/api/translate.js:282-285 | `null` exactly when no position holds `/presentation/d/` followed by an identifier character; otherwise a non-empty identifier taken as the greedy capture at the leftmost match |
| PresentationId.ExtractionCharacterised | pages/api/translate.js:282-285 | the parser returns `id` if and only if `id` is the greedy capture at the leftmost match of the pattern |
| PresentationId.IdRun | pages/api/translate.js:283 | the `[a-zA-Z0-9-_]+` capture takes identifier characters and stops only at the end of the text or at another character |
| PresentationId.FirstMatchFrom | pages/api/translate.js:283 | the search finds the leftmost match at or after a position, or reports that none exists |
| PresentationId.MaximalRunUnique | pages/api/translate.js:283 | there is only one greedy capture at a given position |
| PresentationId.IdRunOfDelimited | pages/api/translate.js:283 | an identifier followed by `/` (or by nothing) is captured exactly |
| TextExtraction.ExtractTextElements | pages/api/translate.js:174-177 | a slide without page elements yields an empty list |
| TextExtraction.ExtractIsScanOfItems | pages/api/translate.js:179-215 | the nested `forEach` walk gives the same result as a scan over the slide's text elements in document order |
| TextExtraction.ExtractTextElementsSpec | pages/api/translate.js:174-218 | the walk throws exactly when some text element in document order throws, with the first such error; otherwise it returns every kept run once, in document order, and nothing else |
| TextExtraction.ScanSpec | pages/api/translate.js:179-215 | the same statement for any document-order list of text elements |
| TextExtraction.Emit | pages/api/translate.js:182-207 | a kept run becomes an entry whose text is its trimmed content, which is non-empty with no whitespace at its ends; the entry keeps the element id, indices and table position |
| TextExtraction.ExtractedEntriesAreOnSlide | pages/api/translate.js:179-215 | every entry comes from a non-blank run of the page element it names: from the shape when it carries no table position, otherwise from that row and cell |
| Translation.TargetLanguage | pages/api/translate.js:244-258 | with `auto`, the target is `zh-CN` exactly when the source is `en`, and `en` otherwise (Chinese included); any other request is used unchanged |
| Translation.AutoNeverTargetsSource | pages/api/translate.js:247-255 | with `auto`, the target language always differs from the detected one |
| Translation.AutoSwapsEnglishAndChinese | pages/api/translate.js:247-255 | with `auto`, English and `zh-CN` map to each other |
| Translation.DetectLanguage | pages/api/translate.js:272-280 | the detected language, or `en` when detection fails |
| Translation.TranslateText | pages/api/translate.js:242-270 | the service's translation into the chosen target, or the original text when the call fails |
| Translation.TranslateElement | pages/api/translate.js:135-149 | the translated element keeps the run's id, text and indices; its translation is either the original text or an answer of the service |
| Translation.TranslateAll | pages/api/translate.js:134-151 | one translated element per extracted run, in run order, with the same original text, object id and indices; each element's translation is the answer to its own translate call (detected language to chosen target), or the original text when that call fails |
| Translation.FailingTranslationKeepsText | pages/api/translate.js:266-268 | when the service always fails, every run is "translated" into itself |
| BatchUpdate.BuildRequests | pages/api/translate.js:221-230 | one request per translated run, in order, each a case-sensitive replace of the original text by its translation on this slide only |
| BatchUpdate.UpdateSlideText | pages/api/translate.js:220-240 | no call when there is nothing to replace; otherwise one batch call on this presentation carrying every request |
| BatchUpdate.DuplicateTextsShareSearchKey | pages/api/translate.js:221-226 | runs with equal text produce requests with equal search text, because replacement is by text and not by element |
| TranslateHandler.ProcessSlide | pages/api/translate.js:122-172 | a throwing walk fails the slide with its message before any remote call; a slide without text succeeds with 0 elements and no calls; otherwise every run is detected, and translated from its detected language into the target `TargetLanguage` picks; request i replaces run i by the answer to translate call i, or by the run itself when that call fails; one batch carries a request per run, and the slide succeeds with the run count exactly when the batch update succeeds, failing with the update error's message otherwise |
| TranslateHandler.TranslatePresentation | pages/api/translate.js:93-120 | a failed fetch rethrows its message; a resource without `slides` throws the `length` TypeError; otherwise one result per slide, in slide order, each tagged with its index |
| TranslateHandler.ValidatePresentationAccess | pages/api/translate.js:77-91 | succeeds exactly when the first fetch succeeds; a 404 and a 403 are replaced by the two fixed messages, any other error keeps its message |
| TranslateHandler.UserMessage | pages/api/translate.js:59-67 | the first of "permission", "not found", "quota" that the message includes (case-sensitively) picks the user message; if none does, the generic one |
| TranslateHandler.Handle | pages/api/translate.js:23-74 | a non-POST gets 405; an unparsable URL gets 400; a 200 names the parsed identifier and reports one result per slide, tagged 0, 1, …; every 500 carries the ordered classification of a thrown message as `error` and that message as `details` exactly in development, the message being the missing-URL `TypeError`, the access check's message, or the translated fetch's message (which includes the missing-`slides` `TypeError`) |
| TranslateHandler.HandleSucceedsIff | pages/api/translate.js:23-53 | 200 exactly for a POST whose URL parses, whose two fetches succeed and whose resource has `slides`, even when individual slides fail; the results are the per-slide results of that slide list |
| TranslateHandler.PermissionDeniedReadsAsGeneric | pages/api/translate.js:61-67 | the 403 message (line 87) contains none of the three substrings, so it is shown as the generic message |
| TranslateHandler.NotFoundReadsAsNotFound | pages/api/translate.js:61-64 | the 404 message (line 85) is recognised as "not found" |
| TranslateHandler.AccessFailureResponse | pages/api/translate.js:77-91 | a request whose access check gets 403 ends in a 500 with the generic message, and one that gets 404 ends in a 500 with the not-found message |
| TranslateHandler.MissingUrlIsGenericServerError | pages/api/translate.js:29-32 | a POST without `slideUrl` is a generic 500, not a 400 |
| TranslateHandler.MissingSlidesIsGenericServerError | pages/api/translate.js:102-103 | a fetched resource without `slides` ends in a generic 500 reporting the `length` TypeError |
| TranslateHandler.QuotaErrorIsReported | pages/api/translate.js:65-66 | a translated fetch rejected with a message mentioning "quota" (and neither earlier substring) reaches the caller as the "try again later" 500 |
| TranslateHandler.BatchTextsComeFromSlide | pages/api/translate.js:220-230 | every request of a slide's batch searches for a trimmed, non-blank run of that slide, on that slide only |
| TranslateHandler.TranslationOutageKeepsText | pages/api/translate.js:134-163 | when every translate call fails, the batch replaces each run by itself, and the slide's success depends only on the batch update |
| PromptInputBox.ValidateGoogleSlidesUrl | components/ui/prompt-input-box.js:8-11 | a URL is accepted exactly when the server's pattern matches right after `https://docs.google.com` |
| PromptInputBox.PrefixTestIsAnchoredPattern | components/ui/prompt-input-box.js:8-11 | testing the literal prefix `https://docs.google.com/presentation/d/` and one identifier character after it is the same as finding the host followed by a match of the server's pattern |
| PromptInputBox.AcceptedUrlYieldsId | components/ui/prompt-input-box.js:8-11 | the server parses every URL the client accepts, and extracts the identifier run right after the prefix |
| PromptInputBox.ServerAcceptsUnanchoredUrl | pages/api/translate.js:282-285 | the server's unanchored pattern accepts `/presentation/d/A`, which the client rejects |
| PromptInputBox.HandleSubmit | components/ui/prompt-input-box.js:13-28 | `onSend` is called, with the trimmed input, exactly when the trimmed input passes the validator; the flag then records whether it was called; blank input is flagged and sends nothing; the text is untouched |
| PromptInputBox.HandleInputChange | components/ui/prompt-input-box.js:30-35 | the input takes the new value; afterwards the form is unflagged exactly when it already was, or the new value is not blank |
| PromptInputBox.SubmittedUrlHasId | components/ui/prompt-input-box.js:13-28 | every URL the form sends has an identifier on the server |
| PromptInputBox.PaddedUrlIsSent | components/ui/prompt-input-box.js:13-28 | a valid URL surrounded by whitespace is sent without the whitespace |
| PromptInputBox.SubmitIdempotent | components/ui/prompt-input-box.js:13-28 | submitting the resulting state again reaches the same verdict and sends the same text |
| PromptInputBox.RejectedSubmitRecovers | components/ui/prompt-input-box.js:30-35 | after a rejected submit the form is flagged; the next edit clears the flag exactly when the new text is not blank |
| Scenarios.ExampleUrlId | pages/api/translate.js:282-285 | `https://docs.google.com/presentation/d/ABC123/edit` yields `ABC123` |
| Scenarios.HelloSlideExtracted | pages/api/translate.js:179-189 | a shape holding "Hello" and a line break yields one entry, "Hello" |
| Scenarios.HelloSlideProcessed | pages/api/translate.js:122-172 | "Hello", detected as `en` and sent with `auto`, is translated into `zh-CN`, and one batch call replaces "Hello" on its slide |
| Scenarios.HelloPresentationTranslated | pages/api/translate.js:93-120 | the one-slide presentation yields one successful slide result, index 0, with one element |
| Scenarios.EndToEndTranslation | pages/api/translate.js:23-53 | the whole request completes with identifier `ABC123`, one translated slide, and result (0, 1 element) |
| Scenarios.AccessDeniedScenario | pages/api/translate.js:84-88 | a 403 ends in a 500 with the generic message; `details` holds the permission message only in development |
| Scenarios.BrokenTableScenario | pages/api/translate.js:194-196 | a table row without cells fails its slide with the `forEach` TypeError message and sends nothing |

## Left out

- Google clients and credentials: the Slides and Translation clients and
  the parsing of the credential environment variable are not modelled. Each
  call is a function argument (`GoogleApis.Services`).
  - Its answers depend only on the call's arguments. For the presentation
    fetch they also depend on the fetch number, so the access check and the
    translated fetch may differ.
  - Retries, timeouts and rate limits are not modelled.
- Concurrency: the model does not cover the order in which `Promise.all`
  issues and completes calls, or their interleaving. Results are in input
  order, as `Promise.all` returns them, and the calls of one slide are
  listed in run order.
- Logging through `console.log` and `console.error` is left out.
- Fixed response texts: the 405 body, the 400 body and the `message` text
  of the 200 body are constant strings. They are represented by the
  `Response` constructors alone.
- Request bodies are simplified in three ways.
  - A missing `slideUrl` is modelled. A non-string `slideUrl` or a missing
    body is not.
  - A `null` or non-string `targetLanguage` is not modelled. Only a missing
    one, which means `auto`, is.
  - A translate answer that is not a string is not modelled.
- Translation.TranslateText: the target-language choice reads
  `sourceLanguage.startsWith`, and a non-string detection result would
  throw inside the `try`. Detection results are always strings in the model,
  so that path is not modelled.
- Strings are sequences of Unicode code points. UTF-16 surrogate halves, and
  the indices `startIndex`/`endIndex` measured in UTF-16 units, are carried
  through unchanged, not interpreted.
- Other parts of the repository are not part of this model:
  - `pages/api/progress/[jobId].js`, the progress store it reads, and the
    polling pages;
  - `pages/api/test-credentials.js`, which only diagnoses credentials;
  - `next.config.js`;
  - the React rendering of the form, including the submit button's
    `disabled` state.
- TextExtraction.ExtractTextElements: its own contract states only the
  empty-slide case. The full contract is in
  `TextExtraction.ExtractTextElementsSpec`.
