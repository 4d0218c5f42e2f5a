# Research-report interpreter: upload routing, prompts and outcomes

This project models the local logic of a small web service. The service
takes an uploaded financial research report, extracts its text and asks the
Moonshot (Kimi) chat-completions API to explain it in plain language. It has
two entry points:

- `api/analyze.js` is a serverless handler. It accepts any multipart file
  field and uses only the first file. It classifies the file by lower-cased
  MIME type and file name, in a fixed order: PDF, Word, text/markdown, image,
  unsupported. Then it extracts the text, refuses texts under 20 characters,
  clips the rest to 12000 characters and builds a fixed prompt. It resolves
  the API key from three environment variables, calls Kimi and returns the
  answer. Every throw becomes a 500.
- `server.js` is an Express app. Its `POST /` takes one file in the field
  "report" and lets it through an exact, case-sensitive MIME allowlist. A
  switch over the same MIME strings extracts the text; images get a fixed
  placeholder. Text over 6000 characters is truncated with a marker. The
  prompt carries the file name and the text. The app stub-parses the answer
  into a structured result, and any failure of the call gives a fixed mock
  result.

Everything is modelled as pure functions. Inputs the code cannot see are
parameters:

- the document libraries (pdf-parse, mammoth, UTF-8 decoding) are the
  functions of `Kimi.Libraries`, applied to the file bytes;
- the network is a function `Kimi.Transport` from the request sent to
  `Answered(content) | HttpError(status, body) | TransportFailure(message)`;
- `process.env` is a map;
- a file on disk is a `Completion<Bytes>`: its bytes, or the error reading it
  throws.

Each handler returns its reply together with the Kimi request it sent, if
any. So "no request was made" can be stated and proved.

Modules:

- `JsValues` (`js_values.dfy`): `undefined`, the `||` fallback chain, env
  lookups, and `Completion` (return or throw).
- `JsStrings` (`js_strings.dfy`): `toLowerCase`, `includes`, `startsWith`,
  `endsWith`, `trim`, `slice`/`substring` prefixes and number-to-string.
- `Kimi` (`kimi.dfy`): the shared request/outcome types and the libraries.
- `Analyze` (`analyze.dfy`): models `api/analyze.js`.
- `Server` (`server.dfy`): models `server.js`.

String semantics:

- JavaScript strings are modelled as sequences of Unicode scalar values.
  These agree with UTF-16 lengths for every character of the Basic
  Multilingual Plane, which covers all of the service's own text.
- `toLowerCase` maps only ASCII capitals.
- `trim` removes ECMAScript's WhiteSpace and LineTerminator characters,
  taken as a fixed set.

Behaviour of the code worth knowing when reading the contracts:

- images are not refused by either entry point: `api/analyze.js` returns an
  OCR notice and `server.js` a placeholder as the file's text, and that text
  goes on to the LLM;
- in `api/analyze.js` a missing API key is a throw like any other, answered
  with a 500;
- neither entry point parses the LLM's answer as JSON: `api/analyze.js`
  returns the text as it came, and `server.js` wraps its first 200 characters
  in a fixed structure;
- each request calls the LLM at most once.

## Model

| member | source | states |
|---|---|---|
| JsValues.FirstTruthy | api/analyze.js:94-97 | `a \|\| b \|\| c` yields the first operand that is neither undefined nor "", with every earlier operand falsy, and there is one exactly when some operand is truthy. When none is, JavaScript yields the last operand (undefined or ""); the model reads that as absent, since `callKimi` only tests `!apiKey` |
| JsValues.OrElse | api/analyze.js:75 | a fallback chain yields its first truthy operand, whichever position it holds, and its default exactly when no operand is truthy |
| JsStrings.ToLower | api/analyze.js:34-35 | lower-casing keeps the length and maps each character on its own |
| JsStrings.TrimStart | api/analyze.js:41 | `trimStart` drops exactly the longest whitespace prefix: the result is a suffix, all dropped characters are whitespace, and the result does not start with whitespace |
| JsStrings.TrimEnd | api/analyze.js:41 | `trimEnd` drops exactly the longest whitespace suffix |
| JsStrings.Trim | api/analyze.js:41 | `trim` returns the middle of the input between a whitespace prefix and suffix, with neither end whitespace; it is empty exactly when the input is all whitespace |
| JsStrings.TrimStartSkipsWhitespace | api/analyze.js:88-90 | a whitespace prefix makes no difference to `trimStart` |
| JsStrings.TrimEndSkipsWhitespace | api/analyze.js:88-90 | a whitespace suffix makes no difference to `trimEnd` |
| JsStrings.TrimIdempotent | api/analyze.js:41 | trimming an already trimmed string changes nothing |
| JsStrings.TrimEndKeepsHead | api/analyze.js:88-90 | trimming the end of `a + b` keeps `a` whole once `b` holds a non-whitespace character |
| JsStrings.Prefix | api/analyze.js:167 | `slice(0, n)` is a prefix of the input of length min(length, n) |
| JsStrings.DecimalRoundTrip | api/analyze.js:129 | the digits a status code is printed as read back as that status code |
| Analyze.AnyUpload | api/analyze.js:26-31 | the upload is rejected exactly when some file exceeds 25 MB; otherwise all files pass, and a missing file list reads as empty |
| Analyze.KindOf | api/analyze.js:38-75 | the branch taken is the first of PDF, Word, text, image whose signal is present, or unsupported when none is |
| Analyze.ClassifyMissingAsEmpty | api/analyze.js:34-35 | a missing name or MIME type is classified as if it were "" |
| Analyze.ClassifyIgnoresCase | api/analyze.js:34-35 | files whose names and MIME types agree after lower-casing are routed alike |
| Analyze.PdfNameWins | api/analyze.js:39-42 | a name ending ".pdf" or ".PDF" routes to the PDF extractor whatever the MIME type |
| Analyze.WordPatternSubsumed | api/analyze.js:45-49 | the "officedocument.wordprocessingml.document" MIME test adds nothing to the "word" test |
| Analyze.DocumentNameBeatsImageMime | api/analyze.js:38-71 | a ".docx" name sent as "image/png" is read as Word, not image |
| Analyze.UnsupportedNoticeNamesType | api/analyze.js:75 | the unsupported-type notice names the MIME type when it is non-empty, else the file name when that is non-empty, else "unknown" |
| Analyze.ExtractText | api/analyze.js:33-76 | PDF, Word and text results come from the matching library and are trimmed; an image gives the fixed OCR notice; anything else gives a notice naming the original MIME type, else name, else "unknown"; only a library can throw; no result starts with whitespace |
| Analyze.BuildPrompt | api/analyze.js:78-91 | the prompt is the template trimmed as a whole: neither end is whitespace |
| Analyze.BuildPromptShape | api/analyze.js:78-91 | the prompt starts with the fixed template; a report with content follows the "【研报原文】" line, losing only its trailing whitespace; a blank report leaves just the template |
| Analyze.PromptRoundTrip | api/analyze.js:88-90 | for every report that is not all whitespace, the report without its trailing whitespace reads back out of the prompt after the template head |
| Analyze.ResolveApiKey | api/analyze.js:94-97 | the key is MOONSHOT_API_KEY, else KIMI_API_KEY, else MOONSHOT_KEY, taking the first that is set and non-empty; it is absent exactly when none is |
| Analyze.CallKimi | api/analyze.js:93-135 | with no key it throws the missing-key error and sends nothing; otherwise it sends one request with the resolved key and the prompt as the user message; the answer content ("" when absent) is returned, and a non-2xx status or transport failure is a throw |
| Analyze.HttpFailureNamesStatus | api/analyze.js:127-130 | the upstream-failure message starts with the fixed prefix followed by the status code's digits |
| Analyze.ErrorText | api/analyze.js:176-181 | the 500 error text is the thrown message, or "Server error" when that is empty |
| Analyze.Handle | api/analyze.js:137-182 | non-POST gives 405 without a call; 400 and 500 are `success: false`; a 400 never sends a request; a 200 follows a sent request that Kimi answered, and its `analysis` is that answer's content, or "" when it had none |
| Analyze.Respond | api/analyze.js:157-181 | after extraction: 400 exactly when the text is under 20 characters; otherwise the reply follows `callKimi` on the prompt of the clipped text: its result with 200, or its thrown message with 500; a request is sent exactly when a key resolves, and a 200 carries the content Kimi answered |
| Analyze.HandleRefusesShortText | api/analyze.js:157-164 | the handler answers the fixed 400 without calling Kimi exactly when the extracted text has fewer than 20 characters, the empty text included |
| Analyze.HandleSendsClippedText | api/analyze.js:166-170 | the user message sent is the prompt of the first 12000 characters of the extracted text; with no key the reply is a 500 with the missing-key message and no request is sent |
| Analyze.ClippedTextInPrompt | api/analyze.js:167-169 | for extracted text of at least 20 characters that does not start with whitespace, the clipped text is a prefix of the extracted text of length min(length, 12000), and the prompt is the template head followed by the clip without its trailing whitespace (the template literal's `.trim()` removes it) |
| Analyze.HandleMapsThrowsTo500 | api/analyze.js:176-181 | an over-size upload or a throwing library yields 500 with `success: false` and the error's message; a 500 always carries a non-empty error |
| Analyze.HandleMapsKimiThrowsTo500 | api/analyze.js:170-181 | a `callKimi` throw after the guard becomes a 500 with its message: the missing-key error without a request, and for a non-2xx status the "HTTP <status> <body>" message with the request that was sent |
| Analyze.HandleReturnsKimiAnswer | api/analyze.js:170-175 | when Kimi answers, the handler replies 200 with the answer's content ("" when absent) |
| Analyze.ReplyTo | api/analyze.js:170-181 | a settled `callKimi` maps to 200 with its result or to 500 with its thrown message, keeping the request it sent |
| Analyze.HandleUsesFirstFileOnly | api/analyze.js:143-155 | once the upload is accepted, the reply and request depend only on the first file |
| Analyze.HandleRequiresAFile | api/analyze.js:146-153 | a POST without files gets the fixed 400 and no request |
| Analyze.ImageUploadReachesKimi | api/analyze.js:157-170 | as written, an image upload passes the length guard and, with a key set, the OCR notice is sent to Kimi as the report |
| Analyze.UnsupportedNoticeGuard | api/analyze.js:157-164 | as written, a file of unsupported type is refused exactly when its MIME type (else name, else "unknown") has fewer than 6 characters |
| Analyze.ExtractDocument | api/analyze.js:33-76 | the extractor's result, with the image and unsupported answers marked as notices |
| Analyze.HandleCorrected | api/analyze.js:157-164 | the handler with notices refused before the guard: non-POST gives 405, and a 400 never sends a request |
| Analyze.CorrectedRefusesNotices | api/analyze.js:157-164 | with the correction, images and unsupported types get 400 with their notice and no request |
| Analyze.CorrectedAgreesOnDocuments | api/analyze.js:157-170 | with the correction, PDF, Word and text uploads are handled exactly as before |
| Server.SingleReport | server.js:42-61 | a file passes multer exactly when its MIME type is allowed and it is at most 50 MB; no file leaves `req.file` undefined |
| Server.FilterMatchesDispatch | server.js:143-155 | a MIME type passes `fileFilter` exactly when it reaches a non-default case of the extraction switch |
| Server.FilterIsCaseSensitive | server.js:45-58 | the allowlist holds only lower-case spellings and compares exactly, so every MIME string that lower-casing would change is refused |
| Server.WithUtf8Fallback | server.js:163-186 | a library's text is used when it succeeds, the file's UTF-8 decoding when it throws, and only an unreadable file throws |
| Server.ExtractTextFromFile | server.js:141-160 | PDF and Word use their library with the UTF-8 fallback; image types give the fixed placeholder; other types throw; a document throws exactly when its file cannot be read |
| Server.ImagesYieldPlaceholder | server.js:189-197 | every accepted image upload yields "[图片内容 - 需要OCR识别]", whatever the file holds |
| Server.Truncate | server.js:203-206 | text of at most 6000 characters is unchanged; longer text becomes its first 6000 characters and the marker; the result never exceeds 6000 plus the marker length |
| Server.TruncateBoundary | server.js:204 | the bound is strict: exactly 6000 characters are kept, 6001 are cut |
| Server.TruncateIdempotent | server.js:203-206 | truncating a truncated text changes nothing |
| Server.ServerPrompt | server.js:209-230 | the prompt starts with the fixed template, has the file name right after it, and ends with a blank line and the text |
| Server.ServerPromptRoundTrip | server.js:226-230 | the text can be read back unchanged from the prompt for its file name |
| Server.ParseKimiResponse | server.js:281-295 | title and sections are constants; the summary is the first min(length, 200) characters of the answer followed by "..." |
| Server.ParseSeesOnlyThePrefix | server.js:287 | answers that agree on their first 200 characters parse to the same result |
| Server.AnalyzeWithKimi | server.js:200-278 | one request is always sent with the truncated text and the file name; an answer with content is stub-parsed and every failure gives the mock result |
| Server.MockOnlyOnFailure | server.js:262-277 | the result is the mock exactly when the call gave no usable answer |
| Server.ServerHandle | server.js:81-129 | no file gives 400; a refused MIME type gives the error middleware's 500; a request is sent exactly when the reply is 200, and it uses KIMI_API_KEY; the 200 carries the uploaded file's name and the stub-parsed answer when Kimi answered with content, else the mock result |
| Server.AcceptedUploadSucceeds | server.js:95-114 | an accepted upload whose text was extracted gets 200 whatever Kimi does, with the `analyzeWithKimi` result for its text and its own file name, and the prompt carries the truncated text |
| Server.AcceptedImageSendsPlaceholder | server.js:149-152 | an accepted image reaches Kimi with the placeholder as its text |
| Server.ExtractionFailureIs500 | server.js:95-101 | an unreadable document, or one whose library result has no text field, gets 500 with "处理失败" and the extraction-failure message |

## Findings

| source | as written | input that shows it | evidently intended | confidence | as-written member | corrected member |
|---|---|---|---|---|---|---|
| api/analyze.js:157-164 | The 20-character guard runs on whatever the extractor returns, including its own notices. The OCR notice for images is longer than 20 characters, so it is clipped, put into the prompt and sent to Kimi as if it were the report. An unsupported type is refused only when the type its notice shows (its MIME type, else its name, else "unknown") is shorter than 6 characters. | A POST with one file `chart.png`, MIME `image/png`, and MOONSHOT_API_KEY set | The guard's error message names scanned PDFs and images, so images (and unsupported types) should be refused with 400 before any call to Kimi | medium; not executed | Analyze.ImageUploadReachesKimi | Analyze.HandleCorrected |

`Analyze.Handle` stays the model of the code as written. `Analyze.HandleCorrected`
reuses all of its parts. `Analyze.CorrectedRefusesNotices` and
`Analyze.CorrectedAgreesOnDocuments` state the intended behaviour.

## Left out

- The internals of pdf-parse, mammoth and UTF-8 decoding: they are foreign
  code. They are opaque functions of the file bytes.
- The network: `fetch`, `axios`, HTTP status semantics, timeouts and JSON
  decoding. They are one opaque `Transport` outcome per request. The timeout
  and `max_tokens` appear only as request fields.
- Express, multer and Vercel plumbing: CORS, static files, the GET page
  routes, `runMiddleware` and disk storage naming.
- multer's field handling. A file in a field other than "report", or a second
  file, is a multer error; `Server.SingleReport` takes at most one stored
  file. The message "File too large" is multer's and is assumed.
- File cleanup with `fs.unlinkSync` (server.js:108, 121). Line 121 calls
  `.catch` on the `undefined` that `unlinkSync` returns, so the 500 of
  lines 124-127 would not actually be sent. The model gives that 500 as the
  route's error reply.
- The second `const PORT` at server.js:309, which stops the file from
  loading, and the startup code. The startup check of `KIMI_API_KEY`
  (server.js:13-17) appears only as the precondition of `Server.ServerHandle`.
- Console logging and the health endpoint's timestamp.
- test-simple.js: a mock server with a canned answer and a delay; it holds no
  logic.
- JsStrings.ToLower: maps only ASCII capitals. Full Unicode lower-casing can
  map a few non-ASCII characters to ASCII letters (the Kelvin sign to "k"),
  which could create a ".pdf"-style suffix this model does not see.
- JsStrings.Trim: the whitespace set is fixed at ECMAScript's WhiteSpace and
  LineTerminator characters for the current Unicode space separators.
- String lengths count Unicode scalar values, not UTF-16 code units, so
  characters outside the Basic Multilingual Plane count once rather than twice
  in the 20-, 200-, 6000- and 12000-character bounds.
