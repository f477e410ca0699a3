# ICF classifier: verified model of the pre-flight, prompt and result pipeline

The repository is a small web application. A browser form collects free-text
patient information and medical-record images. An Express endpoint,
`POST /api/classify`, forwards them to a chat-completions model with a
structured prompt. The browser then shows the model's JSON reply as the six
categories of the ICF (health condition, body functions and structures,
activities, participation, environmental factors, personal factors).

This Dafny project models the two deterministic layers of that pipeline.

- **Browser side (`script.js`).**
  - The upload filter: five accepted MIME types, matched case-insensitively.
    Rejected names keep their order, and one rejected file clears the whole
    selection.
  - The "something must be supplied" guard and the `patientData` object it sends.
  - The resize geometry: the longer side is brought down to at most 1200,
    keeping the aspect ratio and never enlarging.
  - `displayResults` as a pure mapping to six titled sections of inert data.
  - `translate`.
- **Server side (`server.js`).**
  - The input check (400).
  - `hasTextData`.
  - `buildPrompt`: purpose line, patient lines, gender labels, image clause.
  - The user-message content: text, then one data URI per image.
  - The greedy JSON-span extraction `/\{[\s\S]*\}/`.
  - The mapping from the upstream reply to the HTTP status and message.

Modules, one per component: `Common` (an optional value), `JsText` (`trim`,
lower-casing, first/last index), `Upload`, `Preflight`, `Resize`, `Results`,
`ServerInput`, `PromptBuilder`, `Outbound`, `JsonSpan`, `Classify`, and
`Pipeline` (lemmas relating the browser to the server).

The model follows the code as written. Behaviours worth knowing:

- The code extracts from the first `{` to the last `}` (greedy). It does not
  take the first balanced `{...}` span. `JsonSpan.GreedySpanCoversBothObjects`
  shows the difference.
- The server rejects only a request with no `patientData` object and no image.
  A present object whose values are all blank, sent with no image, passes the
  check and reaches the model with a purpose line naming no input
  (`Pipeline.BlankFormDivergence`).
  Only the browser refuses such a form.
- Gender is not restricted to four values. `male` and `female` get their own
  labels, and every other non-empty value is shown as その他.
- Section 1 of the result is judged by truthiness, and sections 2–5 by
  `v && v.length > 0`. So an empty array counts as data in section 1 but not in
  section 2 (`Results.EmptyArrayDivergence`). A non-empty string where a list is
  expected makes `forEach` throw, and rendering fails (`Results.Render`).

## Model

| member | source | states |
|---|---|---|
| `JsText.Trim` | server.js:69 | the trimmed value is a contiguous piece of the input with only white space before and after it, and it neither starts nor ends with white space |
| `JsText.NonBlankIffVisibleChar` | server.js:69 | `value.trim() !== ''` holds exactly when some character of the value is not ECMAScript white space or a line terminator |
| `Upload.IsSupportedIffCaseInsensitiveMatch` | script.js:171-176 | a MIME type is accepted exactly when it equals one of image/png, image/jpeg, image/jpg, image/gif, image/webp up to letter case |
| `Upload.InvalidNamesMembers` | script.js:175-179 | a file name is reported exactly when some selected file with that name has an unsupported type |
| `Upload.InvalidNamesAppend` | script.js:175-179 | the report for a concatenated selection is the concatenation of the reports, so names keep the selection order |
| `Upload.InvalidNamesEmpty` | script.js:181-187 | nothing is reported exactly when every selected file is supported |
| `Upload.CheckSelection` | script.js:170-188 | the selection is cleared exactly when the report of rejected names is non-empty, and then that report (in selection order) is shown; otherwise the selection is kept unchanged |
| `Preflight.ToPatientData` | script.js:208-216 | the submitted `patientData` has exactly the six keys age, gender, diagnosis, symptoms, environmentalFactors, personalFactors, each holding its control's value |
| `Preflight.CheckSubmission` | script.js:197-206 | submission is refused, before any request, exactly when no image is attached and all six fields are blank after `trim`; otherwise the form's `patientData` is sent |
| `Preflight.RefusedIffNoVisibleChar` | script.js:197-206 | refusal happens exactly when there is no image and every character of every field is white space |
| `Resize.FitWithin` | script.js:327-343 | both output sides are at most 1200 and at most the input sides; the aspect ratio is kept exactly; an image within 1200×1200 is unchanged; a wider image over 1200 gets width 1200; a square or taller image over 1200 gets height 1200 |
| `Resize.ScaledBelow` | script.js:333-342 | scaling the shorter side by 1200 divided by the longer side keeps it within 1200, does not enlarge it, and keeps the ratio of the sides |
| `Resize.FitWithinIsUniformScale` | script.js:329-343 | the two-branch computation equals uniform scaling by min(1, 1200 / max(width, height)) |
| `Results.ListedEntries` | script.js:407-428 | rendering a list section fails exactly when a known key holds a non-empty string (where `forEach` throws); otherwise it gives at most one entry per known key |
| `Results.ListedEntriesContents` | script.js:408-427 | every listed entry is a known key whose array is non-empty, with its items exactly as given; every non-empty known array is listed |
| `Results.ListedEntriesAppend` | script.js:408-427 | entries of concatenated slot lists are the concatenation of their entries, so sub-lists keep the fixed slot order and nothing is re-sorted |
| `Results.LabeledEntriesContents` | script.js:385-393 | every labelled line of section 1 is a truthy known key's caption with its interpolated value (arrays comma-joined), and every truthy known key has its line |
| `Results.HealthBody` | script.js:384-396 | section 1 shows the placeholder exactly when the section is missing or none of its values is truthy; otherwise it shows the labelled lines of the known keys, one per truthy key in the slot order currentMedicalHistory, pastMedicalHistory, overview |
| `Results.LabeledEntriesAppend` | script.js:385-393 | the lines of concatenated slot lists are the concatenation of their lines, so lines keep the slot order and no key gives two lines |
| `Results.ListBody` | script.js:407-431 | a list section shows the placeholder exactly when it is missing or none of its values is a non-empty string or array; it fails exactly when it has data and a known key holds a non-empty string; otherwise it shows the section's sub-lists as listed by `ListedEntries` |
| `Results.PersonalBody` | script.js:540-548 | personal factors show the placeholder exactly when missing or empty, fail on a non-empty string, and otherwise show the array's items as given |
| `Results.Render` | script.js:370-556 | a successful rendering has exactly six sections titled 1 to 6 in fixed order, section k computed from the k-th field of the classification alone; rendering fails exactly when a populated list section or the personal factors hold a non-empty string where an array is expected |
| `Results.MissingSameAsEmpty` | script.js:384-548 | for each of the six sections on its own, whatever the others hold, a missing section renders exactly like a present one without data (no truthy value in section 1, no non-empty value in sections 2 to 5, an empty personal-factors value) |
| `Results.OverviewLine` | script.js:384-393 | a section 1 holding one truthy overview shows exactly one line: the overview caption with the interpolated value |
| `Results.OverviewOnly` | script.js:384-396 | a reply holding only a non-empty overview renders section 1 as that single line and sections 2 to 6 as the placeholder |
| `Results.EmptyArrayDivergence` | script.js:384-407 | an empty array counts as data in section 1 and prints as an empty value, but leaves section 2 with the placeholder |
| `Results.Translate` | script.js:104-106 | `translate` returns the current language's entry when it is present and non-empty, and otherwise the key itself |
| `ServerInput.TextDataAndInputCheck` | server.js:62-69 | `hasTextData` (modelled by `HasTextData`) implies the request passes the check; a request passes with neither text data nor images exactly when `patientData` is present with only white-space values and no image is sent |
| `PromptBuilder.PurposeSubjectPhrases` | server.js:143 | the purpose line contains 以下の患者情報 exactly when there is text data, と exactly when there are both text data and images, and アップロードされた画像 exactly when there are images |
| `PromptBuilder.GenderLabel` | server.js:149 | gender is shown as 男性 exactly for "male", 女性 exactly for "female", and その他 for every other value |
| `PromptBuilder.LinesForSound` | server.js:146-153 | every patient line belongs to a listed field whose value is non-empty and shows that value |
| `PromptBuilder.LinesForComplete` | server.js:146-153 | every listed field with a non-empty value gets a line |
| `PromptBuilder.LinesForOrdered` | server.js:146-153 | lines follow the order of the fields, with no field twice |
| `PromptBuilder.PatientLinesSpec` | server.js:146-153 | there is one line per field with a non-empty value, in the fixed order patientId, age, gender, diagnosis, symptoms, environmentalFactors, personalFactors, each showing the value (age with 歳, gender by its label) |
| `PromptBuilder.PromptSeesOnlyImagePresence` | server.js:137-155 | `buildPrompt` (modelled by `BuildPrompt`) depends on the images only through whether any were sent; their types and data never enter the prompt text |
| `PromptBuilder.PromptIgnoresDataWithoutText` | server.js:146-153 | without text data the prompt is the same whatever `patientData` holds |
| `PromptBuilder.PromptOpensWithRole` | server.js:138-140 | the prompt opens with the role heading followed by the role block |
| `PromptBuilder.PromptClosesWithInstructions` | server.js:157-201 | the prompt ends with the instruction and output-format block |
| `PromptBuilder.PromptCarriesPurpose` | server.js:142-143 | the purpose sentence, its conditional subject followed by the fixed tail, is a contiguous piece of the prompt |
| `PromptBuilder.PromptCarriesPatientBlock` | server.js:146-153 | the patient block is a contiguous piece of the prompt |
| `PromptBuilder.PromptCarriesImageClause` | server.js:155 | the image clause is a contiguous piece of the prompt |
| `PromptBuilder.PatientBlock` | server.js:146-153 | the patient block is present exactly when there is text data and a `patientData` object; it is then the header 入力情報: followed by the rendered patient lines |
| `PromptBuilder.RenderLinesAppend` | server.js:146-153 | the rendered lines of concatenated line lists are the concatenation of their renderings, so each line appears once, in order, as `- caption: text` on its own line |
| `PromptBuilder.ImageClause` | server.js:155 | the image clause is present exactly when images are sent |
| `PromptBuilder.BlankFieldStillListed` | server.js:147-148 | an age of white space alone still gets a line, because the template tests truthiness rather than `trim` |
| `PromptBuilder.UnknownKeysGiveBareHeader` | server.js:69 | text under keys the template does not read makes `hasTextData` true but produces a block that is only its header |
| `Outbound.DataUriRoundTrip` | server.js:98 | the data URI built from an image is read back to that image whenever its MIME type has no `;` |
| `Outbound.UserContentFor` | server.js:90-101 | the content is the bare prompt exactly when images are absent or empty; otherwise it is the prompt part followed by one data-URI part per image, with length one plus the number of images |
| `Outbound.ImagePartsRoundTrip` | server.js:95-100 | the images are read back from their parts intact and in order |
| `Outbound.UserContentRoundTrip` | server.js:90-101 | the prompt and every image, in order, are recovered from the user content |
| `JsonSpan.FindSpan` | server.js:120 | a found span is non-empty and lies within the reply |
| `JsonSpan.FindSpanIsRegexMatch` | server.js:120 | the first-`{`-to-last-`}` span exists exactly when the pattern matches somewhere, and is the leftmost, longest match, as the backtracking regex engine gives |
| `JsonSpan.ExtractJsonShape` | server.js:120-126 | extraction succeeds exactly when some `}` follows some `{`; the span is a contiguous piece of the reply that starts with `{`, ends with `}`, has no `{` before it and no `}` after it |
| `JsonSpan.GreedySpanCoversBothObjects` | server.js:120 | for "{a} {b}" the match covers both objects, not the first balanced one |
| `Classify.Gate` | server.js:62-66 | the handler answers 400 with the fixed message, before any upstream request, exactly when `patientData` is absent and images are absent or empty |
| `Classify.ForwardedRequestContents` | server.js:71-105 | a request that passes the check is forwarded to gpt-4o in JSON mode at temperature 0.3, carrying the built prompt and every image in order |
| `Classify.Respond` | server.js:108-133 | 200 with the parsed object exactly when the upstream reply is OK, its content has a brace span and the span parses; a readable non-OK reply keeps its status and gives its message when that is non-empty, and the fixed fallback otherwise; every other case is 500 with the fixed generic message |
| `Classify.TwoObjectsNeedCombinedParse` | server.js:120-133 | content holding two objects fails with the generic 500 when the greedy span covering both does not parse |
| `Classify.RejectedWithoutUpstream` | server.js:62-74 | the handler (modelled by `Handle`) answers a request with no input with the 400 whatever the upstream would do, so no upstream request is needed |
| `Classify.ForwardedIsAnsweredUpstream` | server.js:68-133 | the handler (modelled by `Handle`) answers any other request from the upstream reply to the request it builds |
| `Pipeline.ClientServerAgree` | server.js:69 | for every form the browser sends, the server's `hasTextData` equals the browser's `hasTextInput` |
| `Pipeline.ClientSubmissionsPassGate` | server.js:62-66 | everything the browser submits passes the server's check, because it always sends a `patientData` object |
| `Pipeline.BlankFormDivergence` | server.js:62-69 | a form of blanks with no image is refused by the browser, but the same body passes the server's check with no text data and an empty purpose subject |
| `Pipeline.ClientImagesRoundTrip` | script.js:353-356 | images re-encoded as image/jpeg come back intact and in order from the server's user content |

## Left out

- DOM work is not modelled because it is presentation: `localStorage`, event wiring, drag and drop, the collapsible panel, `setLanguage`, `handleFileSelect`'s prompt text, the `alert` texts, and the `innerHTML` markup of `displayResults`. The renderer yields titles, captions, values and item lists instead.
- Browser image APIs are not modelled: `FileReader`, `Image`, canvas `drawImage`, `toBlob` JPEG encoding at quality 0.8, base64 production and `cleanupImageData`. Only the dimension arithmetic is modelled.
- Resize.FitWithin: computes over exact reals. It leaves out IEEE-754 rounding of `height * (1200 / width)` and the canvas's truncation of a fractional width or height to an integer.
- The source does not handle a decode failure of the `Image` element, because there is no `onerror` on it. That is browser behaviour and is not modelled.
- Both `fetch` calls (browser to server, server to model) and `response.json()` are not modelled. The upstream reply is the `UpstreamReply` parameter, or the `upstream` function of the forwarded request. `JSON.parse` is the `parse` oracle.
- The browser's handling of the server's answer is not modelled (script.js:255-264, the error text and the call to `displayResults`). The same goes for the async submit lifecycle: button disable and re-enable, the `finally` cleanup, and `Promise.all`.
- Express configuration is not modelled: helmet/CSP, CORS, rate limiting, body-size limits, static serving and `app.listen`. Express's own range check on `res.status` is not modelled either.
- The wording of the fixed prompt prose is a parameter (`FixedProse`): the system message, the role block, the goal note and the instruction/output-format block. The conditional structure around it is modelled. The prompt's determinism holds by construction, because `BuildPrompt` is a function.
- The contents of the `translations` table are not modelled. `Translate` takes the current language's table as a parameter, so a `currentLang` without a table (a `TypeError` in the source) is not modelled.
- JSON values outside the modelled shapes are not modelled:
  - `patientData` values are strings; `null` is treated as a missing key, which behaves the same everywhere.
  - Classification leaves are missing/`null`, a string, or an array of strings.
  - Section values are objects or missing/`null`.
  - Numbers, booleans, nested objects, arrays of non-strings, non-object sections and extra top-level keys are out of scope. Extra keys inside a section are modelled.
- Classify.Respond: a non-string `error.message` in a failed upstream reply (a number, say) is read as missing, so the model gives the fallback text where the source would pass the value on. Non-string JSON values are outside the modelled shapes.
- Lower-casing is modelled for ASCII letters only. The one non-ASCII character whose JavaScript lower case is ASCII is KELVIN SIGN, which becomes `k`. No accepted type contains `k`, so membership in the accepted list is unaffected.
- api/hello.js is not part of this model. It is a trivial handler returning a wall-clock timestamp.
