# JD-Builders relay, modelled in Dafny

JD-Builders is a small relay. A client posts a job description, either as free
text (`POST /enhance`) or as form fields (`POST /formenhance`). The back end
builds a system prompt around a tone guide and a user message. It makes one
call to a LLaMA chat-completion service and returns the completion as
`{ enhanced }`. A separate front-end server writes the Firebase settings from
its environment into the page it serves. It also reports at `/config-check`
which of those settings are set.

The model covers the decision and string-building steps of these handlers:

- `js_string.dfy` (module `JsString`): the JavaScript operations they rely on.
  These are `trim` with ECMAScript's whitespace set, `join`, and the decimal
  rendering of a status code. Each comes with a reading back: blankness,
  cutting at a separator, and parsing digits.
- `prompt.dfy` (module `Prompt`): the tone table with its fallback, the two
  system-prompt templates and their trimming, and the `"key: value"` user
  content.
- `form_params.dfy` (module `FormParams`): how `/formenhance` assembles its field
  list. This is an imperative method with the four conditional pushes and
  the push loop over the extra fields, proved against the function
  `FieldList`.
- `upstream.dfy` (module `Upstream`): how the two completion callers classify
  the service's answer. The form-mode caller distinguishes an HTTP error, a
  parse error, a shape error and content. The text-mode caller checks the
  status only.
- `handlers.dfy` (module `Handlers`): the two POST handlers as methods. The
  completion service is a function parameter. The `sent` result records
  whether the service was called, and with which request. A rejected request
  is a 400 and calls nothing. Any failure afterwards is a 500 whose message
  is the handler's prefix followed by the error's message.
- `frontend.dfy` (module `Frontend`): the chain of six first-occurrence
  `replace` calls in `GET /`, including the `$` patterns of the replacement
  text, and the loaded/missing report of `/config-check`.

The completion's text is returned as one string. The source holds no parser
for the `=== SHORT POST ===`, `=== LONG POST ===` and `=== ATS DESCRIPTION ===`
markers. They appear only inside the prompt text, so the model has no
section parser either. Both callers send temperature 0.7.

## Model

| member | source | states |
|---|---|---|
| `JsString.Truthy` | backend/server.js:243-246 | JavaScript truthiness of a string value: present and non-empty; used for the text check, the conditional pushes, the `/config-check` report and the `''` fallback of the replace chain |
| `JsString.IsWhitespace` | backend/server.js:82 | the characters `trim()` strips: the WhiteSpace and LineTerminator code points of ECMA-262 |
| `JsString.TrimStart` | backend/server.js:82 | the result is the suffix left after the leading whitespace; all that is dropped is whitespace and the result does not start with whitespace |
| `JsString.TrimEnd` | backend/server.js:82 | the result is the prefix left before the trailing whitespace; all that is dropped is whitespace and the result does not end with whitespace |
| `JsString.Trim` | backend/server.js:214 | `trim()` keeps a text that neither starts nor ends with whitespace, and keeps nothing exactly when the text is whitespace only |
| `JsString.TrimStartAfterBlank` | backend/server.js:82 | removing leading whitespace stops at the first character that is not whitespace |
| `JsString.TrimEndBeforeBlank` | backend/server.js:82 | removing trailing whitespace stops at the last character that is not whitespace |
| `JsString.TrimAround` | backend/server.js:82 | trimming whitespace-only margins around a text that starts and ends with non-whitespace gives back that text |
| `JsString.Join` | backend/server.js:28 | the joined text begins with the first part and ends with the last, and joining no parts gives the empty text |
| `JsString.SplitWithoutSeparator` | backend/server.js:28 | a text without the separator is a single piece |
| `JsString.SplitAtFirstSeparator` | backend/server.js:28 | cutting at the first separator yields the text before it, then the pieces of the rest |
| `JsString.SplitJoin` | backend/server.js:28 | cutting a joined text at the separator gives back the joined parts one for one, when no part contains the separator |
| `JsString.DigitChar` | backend/server.js:99 | a digit below ten becomes the decimal digit with that value |
| `JsString.DigitValue` | backend/server.js:99 | a decimal digit's value is below ten and converts back to the same digit |
| `JsString.DecimalString` | backend/server.js:99 | the rendered status is a non-empty string of decimal digits |
| `JsString.DecimalRoundTrip` | backend/server.js:99 | parsing the rendered status gives back the status |
| `JsString.DigitRun` | backend/server.js:99 | the longest leading run of digits is found, and the character after it is not a digit |
| `Prompt.ToneGuide` | backend/server.js:30-37 | each of the four known tones gets its own instruction; an absent tone or any other name gets the professional instruction |
| `Prompt.ToneGuidesDistinct` | backend/server.js:30-35 | the four instructions differ pairwise |
| `Prompt.TrimmedTemplate` | backend/server.js:40-82 | trimming a filled template removes only its leading line break and trailing indentation |
| `Prompt.Template` | backend/server.js:40-77 | the template literal as written: a line break after the opening backtick, the guide in two places, and a line break and indentation before the closing backtick; its trimming is stated by `Prompt.TrimmedTemplate` |
| `Prompt.FormSystemPrompt` | backend/server.js:37-82 | the form-mode system prompt is the template text with the tone guide verbatim in both places |
| `Prompt.TextSystemPrompt` | backend/server.js:125-169 | the text-mode system prompt is the template text with the tone guide verbatim in both places |
| `Prompt.FilledTemplateInjective` | backend/server.js:40-77 | two filled templates are equal exactly when their guides are equal |
| `Prompt.FormSystemPromptDeterminedByGuide` | backend/server.js:37-82 | the form-mode system prompt depends on the request through the tone guide only, and different guides give different prompts |
| `Prompt.TextSystemPromptDeterminedByGuide` | backend/server.js:125-169 | the same holds for the text-mode system prompt |
| `Prompt.EntryLines` | backend/server.js:26-27 | there is one `"key: value"` line per field, in field order |
| `Prompt.EntryLine` | backend/server.js:27 | the map callback: the key, a colon and a space, then the value |
| `Prompt.FormatContent` | backend/server.js:26-28 | the user content is empty exactly when there are no fields, and otherwise begins with the first field's line |
| `Prompt.FormatContentLines` | backend/server.js:26-28 | the user content cut at line breaks gives back exactly the field lines in order, with no extra or trailing line (keys and values without line breaks) |
| `FormParams.KnownValues` | backend/server.js:232-236 | the four known values are listed in push order |
| `FormParams.EntryIfTruthy` | backend/server.js:243-246 | one conditional push: an entry with the value when it is truthy, none otherwise; stated by `FormParams.KnownEntryIffTruthy` |
| `FormParams.KnownEntries` | backend/server.js:243-246 | the conditional pushes use only the four labels, in the order Company, Role, Skills, Eligibility |
| `FormParams.FieldList` | backend/server.js:241-256 | the list is empty, and the request rejected, exactly when no known field is truthy and there are no extra fields |
| `FormParams.AssembleParams` | backend/server.js:241-250 | the pushes build exactly the known entries followed by every extra field |
| `FormParams.KnownEntryIffTruthy` | backend/server.js:243-246 | a known field has an entry exactly when its value is present and non-empty, and the entry carries that value unchanged |
| `FormParams.ExtraFieldsFollow` | backend/server.js:248-250 | all extra fields follow the known entries, unchanged and in enumeration order, empty values included |
| `Upstream.HttpErrorMessage` | backend/server.js:98-100 | the HTTP error message carries the status and the whole raw body and can be read back exactly |
| `Upstream.ErrorMessage` | backend/server.js:97-111 | each error's message: the readable HTTP error, "Failed to parse LLaMA JSON: " followed by the raw body, "Unexpected LLaMA response format", or the runtime's own message |
| `Upstream.ClassifyForm` | backend/server.js:97-113 | a response that is not ok is an HTTP error with its status and body; an unparsable body is a parse error; a parsed body without a reachable, non-empty content is the shape error; a rejected fetch rethrows its own error; success means ok, parsed and a non-empty content, returned verbatim |
| `Upstream.ClassifyText` | backend/server.js:184-190 | only the status is checked: a response that is not ok is an HTTP error; an unparsable body throws the runtime's SyntaxError and an unreachable `message` its TypeError; a rejected fetch rethrows its own error; success means ok with a reachable `message`, and its content is returned as-is, even when empty or absent |
| `Upstream.FormClassificationRefinesText` | backend/server.js:184-190 | the two callers agree whenever the form-mode caller succeeds or the response is not ok; the text-mode caller fails only where the form-mode caller does |
| `Upstream.TextCallerAcceptsEmptyContent` | backend/server.js:109-111 | an empty content is a shape error for the form-mode caller but is returned by the text-mode caller |
| `Handlers.Respond` | backend/server.js:221-226 | success becomes `{ enhanced: content }`; any error becomes a 500 whose message is the prefix followed by the error's message |
| `Handlers.TextCompletion` | backend/server.js:166-173 | the request names the model "llama-3.3-70b-versatile", carries the text-mode system prompt, and its user message is the caller's text, unchanged |
| `Handlers.FormCompletion` | backend/server.js:79-86 | the request names the model "llama-3.3-70b-versatile", carries the form-mode system prompt, and its user message is the formatted field list |
| `Handlers.Enhance` | backend/server.js:210-227 | missing, empty or whitespace-only text is a 400 "Text input is required." and calls nothing; otherwise the untrimmed text is sent to model "llama-3.3-70b-versatile" with the text-mode system prompt and the outcome is mapped by the catch block |
| `Handlers.FormEnhance` | backend/server.js:230-267 | the request is a 400 "At least one form field is required." exactly when no field is truthy and there are no extra fields, and then nothing is called; otherwise the formatted list is sent to model "llama-3.3-70b-versatile" with the form-mode system prompt, and a 200 always carries non-empty content |
| `Handlers.FormUpstreamStatusReported` | backend/server.js:261-266 | a response that is not ok reaches the `/formenhance` client as a 500 whose message gives back the upstream status and body |
| `Handlers.TextUpstreamStatusReported` | backend/server.js:221-226 | the same for `/enhance` |
| `Frontend.Placeholder` | frontend.js:41 | a placeholder is non-empty and starts with `{` |
| `Frontend.IndexOfFrom` | frontend.js:41-46 | the result is the first occurrence at or after the start, or None when there is none |
| `Frontend.Substitution` | frontend.js:41-46 | the replacement text as `replace` expands it; a value without `$` is inserted literally |
| `Frontend.EnvValue` | frontend.js:41-46 | the value the chain writes: the variable's value when set and non-empty, else the empty text; its link to the report is stated by `Frontend.StatusOf` |
| `Frontend.ReplaceFirst` | frontend.js:41-46 | `replace` with a string pattern; what it does is stated by `Frontend.ReplaceFirstAbsent`, `Frontend.ReplaceFirstAt`, `Frontend.ReplaceAfterFreePrefix` and `Frontend.ReplaceFirstKeepsLaterOccurrence` |
| `Frontend.ReplaceFirstAbsent` | frontend.js:41-46 | a step whose placeholder does not occur leaves the page unchanged |
| `Frontend.ReplaceFirstAt` | frontend.js:41-46 | a step replaces only the first occurrence and keeps the text before and after it |
| `Frontend.ReplaceAfterFreePrefix` | frontend.js:41-46 | when no occurrence of the pattern starts in the text before it, the pattern placed there is the occurrence replaced |
| `Frontend.NoEarlierPlaceholder` | frontend.js:41-46 | in text without `{{` no occurrence of a placeholder can start, not even one running on into the placeholder placed right after that text |
| `Frontend.ReplaceFirstKeepsLaterOccurrence` | frontend.js:41-46 | an occurrence after the one `indexOf` finds survives the replacement, at the same distance from the end of the text |
| `Frontend.ServePage` | frontend.js:30-50 | a page that cannot be read gives a 500 "Internal Server Error"; otherwise the page is served after injection |
| `Frontend.InjectSteps` | frontend.js:40-46 | the replace chain, each step on the previous step's output; stated by `Frontend.InjectStepsCompose` and `Frontend.InjectLaidOut` |
| `Frontend.InjectConfig` | frontend.js:40-46 | the chain over the six Firebase variables; stated by `Frontend.InjectConfigLaidOut` and `Frontend.ConfigCheckMatchesInjection` |
| `Frontend.InjectStepsCompose` | frontend.js:40-46 | the chain runs step after step, each on the previous step's output |
| `Frontend.InjectOneStep` | frontend.js:41-46 | a placeholder with no earlier occurrence of itself becomes the variable's value, or empty when the variable is unset or empty (a value without `$`) |
| `Frontend.InjectLaidOut` | frontend.js:40-46 | a page carrying the placeholders once each, in chain order, gets each replaced by its value, whatever single braces the page holds, as long as the resulting page holds no `{{` and no value holds a `$` |
| `Frontend.InjectConfigLaidOut` | frontend.js:40-46 | the same for the six Firebase placeholders in the order API_KEY, AUTH_DOMAIN, PROJECT_ID, STORAGE_BUCKET, MESSAGING_SENDER_ID, APP_ID, under the same two conditions |
| `Frontend.MatchPatternKeepsPlaceholder` | frontend.js:41-46 | a value of `$&` writes the placeholder back instead of itself (text before it without `{{`) |
| `Frontend.LaterStepRewritesEarlierValue` | frontend.js:41-46 | a value that holds a later variable's placeholder is replaced again by that later step |
| `Frontend.StatusList` | frontend.js:18-25 | the report lists six statuses, in chain order |
| `Frontend.StatusOf` | frontend.js:18-25 | a variable is reported loaded exactly when the page would get a non-empty value for it |
| `Frontend.ConfigCheck` | frontend.js:18-25 | the six statuses of the report, in chain order, each for its own variable |
| `Frontend.ConfigCheckMatchesInjection` | frontend.js:18-25 | a variable is reported loaded exactly when the page gets a non-empty value for it, and missing exactly when it gets the empty string |

## Left out

- Express wiring, CORS, static files, dotenv and `listen` (backend/server.js:3-11, 270-273; frontend.js:1-14, 52-54) are framework plumbing.
- The start-up exit on a missing `LLAMA_API_KEY` (backend/server.js:16-19) is environment I/O and a process exit.
- `GET /` and `GET /health` of the back end (backend/server.js:195-207) hold constant text and a clock reading.
- Console logging and the `/config-check` timestamp are left out.
- The `fetch` call is not modelled: endpoint, headers, bearer key and the JSON encoding of the body. It becomes the `upstream` parameter of the handlers and the `Exchange` value it returns.
- `JSON.parse` is not modelled. Its result is part of `Exchange`, with the runtime's SyntaxError and TypeError messages as given strings.
- The model identifier is modelled; the temperature 0.7 is a float passed through and is not.
- Request values are strings or absent. Numbers, booleans, objects and `null` are not modelled, for `text`, `tone`, the known fields, the extra values and the completion content; `null` and a missing content are both None.
- `extraFields` is taken as its entries in `Object.entries` order. JavaScript's own ordering is not modelled: integer-like keys first, then insertion order. A `null` `extraFields`, which makes `Object.entries` throw, is not modelled either.
- Characters are Unicode scalar values, not UTF-16 code units.
- Frontend.InjectLaidOut: states the injected page only when the resulting page holds no `{{` and no value holds a `$`; a `{{` next to a placeholder, or a value holding a placeholder or a `$` pattern, can make a step rewrite other text, which Frontend.LaterStepRewritesEarlierValue and Frontend.MatchPatternKeepsPlaceholder show.
- Frontend.InjectConfigLaidOut: carries the same two conditions as Frontend.InjectLaidOut.
- Prompt.ToneGuide: requires a tone that is not an `Object.prototype` member name such as `toString`, because such a name finds an inherited member instead of a table entry.
- Handlers.Enhance: carries the same tone requirement as Prompt.ToneGuide.
- Handlers.FormEnhance: carries the same tone requirement as Prompt.ToneGuide.
- start.js is not part of this model: it is process supervision of the two servers.
