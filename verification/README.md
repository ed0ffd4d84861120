# 5S scoring app: the reply handling, the photo picker and the score panel

This project models the three pieces of sequential logic in a web app that
scores workplace photos against the 5S method (Sort, Set in Order, Shine,
Standardize, Sustain):

- `analyze5SFromImages` on the server. It builds the message for the vision
  model: one text block, then one JPEG image block per uploaded image. It then
  strips markdown code fences from the reply, parses it and checks its
  structure. On success it shapes the result into an `Analysis` record. Every
  failure becomes the single error "Failed to analyze images".
- The `PhotoCapture` component. It is modelled as pure transitions over its
  state `(photos, loading)`: file selection, the two halves of a submission,
  and the grid and card layout classes.
- The `ScoreDisplay` component. It covers the five-category list, the
  three-band score colour, the category breakdown rows and when the
  suggestions card is shown.

Files:

- `wrappers.dfy`: `Option` and `Result`.
- `json.dfy`: the parsed JSON value, JavaScript truthiness and property reads.
- `text.dfy`: the fence-removing regular expression and `trim`.
- `types.dfy`: the `Analysis` record.
- `anthropic.dfy`: the request, the validation, the result shaping and the error collapse.
- `photo_capture.dfy`: the photo picker.
- `score_display.dfy`: the score panel.

The SDK call and `JSON.parse` are parameters of the model. `service` maps
the built request to a reply. `parse` maps text to `Some(value)`, or to
`None` when the parser would throw. The prompt text is a parameter too: only
its position in the message matters.

Behaviour of the code as written, stated as lemmas:

- `overallScore` and `suggestions` are checked only for truthiness. An
  overall score of `0` and an empty suggestions string are refused. A string
  or array overall score is accepted
  (`Anthropic.OverallScoreCheckedOnlyForTruthiness`). The panel then formats
  that value with `toFixed`, which only numbers have
  (`ScoreDisplay.AcceptedOverallScoreNeedNotBeNumber`).
- Category scores must be JSON numbers. A numeric string is not coerced.
  There is no 0–100 bound (`Anthropic.ScoresHaveNoRange`,
  `Anthropic.NumericStringScoreRefused`).
- The object spread keeps every extra key of the reply. The model's
  `Analysis` record carries those keys in `extra`, and
  `Anthropic.ShapeIsSpread` proves that the record is exactly the spread
  object.
- An empty file selection passes both checks and clears the photos.

## Model

| member | source | states |
|---|---|---|
| `Anthropic.ImageBlocks` | server/services/anthropic.ts:90-97 | one image block per input, same length, block i carries input i as base64 `image/jpeg` |
| `Anthropic.BuildContent` | server/services/anthropic.ts:85-98 | the content has 1 + n blocks; block 0 is the prompt text; block i+1 is a base64 `image/jpeg` image carrying input i, in input order |
| `Anthropic.ImageBlocksRoundTrip` | server/services/anthropic.ts:90-97 | reading the image blocks back gives the inputs, in order, and no text |
| `Anthropic.ContentRoundTrip` | server/services/anthropic.ts:85-98 | the message carries exactly the prompt as text and exactly the input images, in order, as images |
| `Text.Trim` | server/services/anthropic.ts:106 | a non-empty trimmed text neither starts nor ends with JavaScript whitespace |
| `Text.TrimCutsOnlyWhitespace` | server/services/anthropic.ts:106 | the trimmed text is an infix of the input; everything cut on either side is whitespace |
| `Text.TrimIdempotent` | server/services/anthropic.ts:106 | trimming twice is the same as trimming once |
| `Text.StripKeepsBacktickFreePrefix` | server/services/anthropic.ts:106 | backtick-free text passes the fence removal unchanged when what follows it does not start with a backtick |
| `Text.NoBacktickOnlyTrimmed` | server/services/anthropic.ts:106 | a reply with no backtick is only trimmed before parsing |
| `Text.FencedReplyYieldsBody` | server/services/anthropic.ts:106 | a reply "```json\n" + body + "\n```" whose body has no backtick yields trim(body) |
| `Anthropic.FirstBadScore` | server/services/anthropic.ts:115-120 | the score loop finds nothing exactly when every required key holds a number; otherwise it names the first key, in order, that does not |
| `Anthropic.Validate` | server/services/anthropic.ts:109-120 | accepts exactly the replies that are objects with truthy `overallScore` and `suggestions` and a `scores` object holding the five keys as numbers; a `null` reply throws; an absent or falsy field gives 'Invalid response format'; a bad score names the first bad key; an accepted reply is returned unchanged |
| `Anthropic.OverallScoreCheckedOnlyForTruthiness` | server/services/anthropic.ts:110-112 | overall score 0 and suggestions "" are refused; a string or array overall score is accepted |
| `Anthropic.ScoresHaveNoRange` | server/services/anthropic.ts:115-120 | scores of -250 and 1000 are accepted: there is no range bound |
| `Anthropic.NumericStringScoreRefused` | server/services/anthropic.ts:115-120 | a score given as the string "80" is refused, naming that key, with no coercion |
| `Anthropic.Shape` | server/services/anthropic.ts:122-128 | `overallScore`, `scores` and `suggestions` pass through unchanged; location, department and work station are "" and the image URLs empty; every other key is kept |
| `Anthropic.ShapeIsSpread` | server/services/anthropic.ts:122-128 | the shaped record, as an object, is the reply object with the four overrides on top |
| `Anthropic.Interpret` | server/services/anthropic.ts:104-128 | the cleaned text succeeds exactly when it parses to a well-formed reply; a parse failure fails; on success the three fields pass through and the four are overridden |
| `Anthropic.Analyze` | server/services/anthropic.ts:79-136 | every failure, including an SDK error, surfaces as "Failed to analyze images"; success holds exactly when the reply's first block is text that cleans and parses to a well-formed reply, and the value returned is then that parsed reply shaped into an `Analysis` |
| `PhotoCapture.FilterValid` | client/src/components/PhotoCapture.tsx:30-33 | the kept files are all of whitelisted MIME types, and every whitelisted file of the selection is kept as often as it occurs there: as multisets, the result is exactly the whitelisted part of the selection |
| `PhotoCapture.FilterDistributes` | client/src/components/PhotoCapture.tsx:30-33 | filtering a concatenation is filtering each part and concatenating, so the kept files stay in selection order |
| `PhotoCapture.FilterKeepsAllIffAllValid` | client/src/components/PhotoCapture.tsx:30-44 | the filter keeps every file exactly when all are whitelisted, and it then returns the selection itself in order |
| `PhotoCapture.SelectFiles` | client/src/components/PhotoCapture.tsx:19-44 | more than 4 files gives "Too many photos" and no change, even if they are also invalid; any non-whitelisted file gives "Invalid file type" and no change; otherwise photos become exactly the files, in order |
| `PhotoCapture.FormOf` | client/src/components/PhotoCapture.tsx:64-65 | the form holds one `photos` entry per photo, in order |
| `PhotoCapture.FormRoundTrip` | client/src/components/PhotoCapture.tsx:64-65 | reading the form back under `photos` gives exactly the photos in order; no other field carries anything |
| `PhotoCapture.StartSubmit` | client/src/components/PhotoCapture.tsx:53-65 | with zero photos, submission is refused and no request is built; otherwise loading is raised and a POST to /api/analyze carries every photo under `photos`, in order |
| `PhotoCapture.FinishSubmit` | client/src/components/PhotoCapture.tsx:67-87 | loading is cleared on every path; the analysis is handed on exactly when the response is ok and its body is read; otherwise the error notice is shown |
| `PhotoCapture.Submit` | client/src/components/PhotoCapture.tsx:53-88 | an uninterrupted submission: an empty selection is refused with the state unchanged; otherwise loading is false afterwards, the photos are unchanged, and the submission completes exactly when the server's answer to the upload of the photos is an ok response with a readable body, handing on that body; otherwise the error notice is shown |
| `PhotoCapture.SubmitSendsAllPhotosAndClearsLoading` | client/src/components/PhotoCapture.tsx:63-87 | a submission with photos sends them all in order; loading ends false; it completes exactly when the response is ok with a readable body, and the analysis handed on is that body |
| `PhotoCapture.ReachableInvariant` | client/src/components/PhotoCapture.tsx:13-88 | the initial state holds the invariant (at most 4 photos, all whitelisted); each transition on its own (a selection, the start of a submission, its end) keeps it from any state, including a selection made while a request is pending |
| `PhotoCapture.AnalyzeButtonGuardsSubmission` | client/src/components/PhotoCapture.tsx:169-178 | when the Analyze button is enabled a submission starts; the pending submission disables the button and its end enables it again |
| `PhotoCapture.SelectionDuringSubmit` | client/src/components/PhotoCapture.tsx:19-87 | a selection made while a request is pending replaces the photos at once; the request already sent carries the old photos; the end of the request keeps the new photos and clears loading |
| `PhotoCapture.GridTemplate` | client/src/components/PhotoCapture.tsx:90-103 | counts 1 to 4 get their own column classes; every other count gets "grid-cols-2" |
| `PhotoCapture.CardSpans` | client/src/components/PhotoCapture.tsx:105-119 | a card spans two columns exactly when it is index 0 of 3 or 4; every other card spans one |
| `PhotoCapture.CardAspects` | client/src/components/PhotoCapture.tsx:105-119 | a card is 16:9 (`aspect-video`) exactly when it is the only card or index 0 of 3 or 4; every other card is square |
| `ScoreDisplay.CategoriesMatchRequiredScores` | client/src/components/ScoreDisplay.tsx:10-16 | the panel's keys are sort, setInOrder, shine, standardize and sustain, in that order: the key list the service checks |
| `ScoreDisplay.ScoreColor` | client/src/components/ScoreDisplay.tsx:18-22 | green exactly when the score is at least 90; yellow exactly when it is from 70 to below 90; red exactly when it is below 70 |
| `ScoreDisplay.ScoreColorMonotone` | client/src/components/ScoreDisplay.tsx:18-22 | a higher score never gets a worse colour |
| `ScoreDisplay.RowsFor` | client/src/components/ScoreDisplay.tsx:35-46 | one row per listed category, in order, with that category's score and the score's colour |
| `ScoreDisplay.CategoryRows` | client/src/components/ScoreDisplay.tsx:35-46 | the breakdown has five rows in the fixed category order, with their scores and colours |
| `ScoreDisplay.AcceptedAnalysisDisplays` | client/src/components/ScoreDisplay.tsx:35-54 | an accepted analysis has a number for every category row, and its suggestions card is shown |
| `ScoreDisplay.AcceptedOverallScoreNeedNotBeNumber` | client/src/components/ScoreDisplay.tsx:29 | an accepted analysis can carry a non-numeric overall score, which `toFixed` cannot format |

## Left out

- The prompt's wording: it is a parameter. Only its place as block 0 is modelled.
- The Anthropic SDK call: it is the parameter `service`. The model name, token limit and temperature are kept as constants of the request.
- `JSON.parse` and `response.json()`: they are modelled as returning an optional value. No JSON parser is verified.
- Number semantics: JSON numbers are `real`, not IEEE doubles. `NaN` cannot come out of JSON.
- Logging with `console.error`: this is I/O.
- The intermediate message "Failed to analyze images: Invalid response format": the outer handler always replaces it. Only the final message is modelled, and the internal reason is kept as `Fault`.
- React state, hooks, refs and the preview object URLs: these are UI and I/O. The layout functions take the photo count, which the preview count equals once the previews are built.
- Toast texts and variants: notices are modelled by kind (too many photos, invalid file type, no photos selected, analysis error); their titles and descriptions are presentation.
- Interleavings of a submission: the transitions are modelled one by one, so a selection during a pending request is covered (`PhotoCapture.SelectionDuringSubmit`); `PhotoCapture.Submit` is the run with no event between its halves.
- The `onAnalysisComplete` callback: it is the `Completed` outcome of a submission. The model assumes the callback does not throw; if it did, the source would show the error toast.
- `fetch`: it is the parameter `server`.
- `toFixed(1)` formatting and the progress bar: these are presentation.
- server/routes.ts: multer limits, sharp JPEG re-encoding at quality 80, the database insert and the HTTP status mapping are foreign libraries and I/O. db/schema.ts is a declarative table.
- Retry with backoff, per-category findings and recommendations, image file naming and two-phase persistence: none of these exists in the modelled code.
- `Text.StripFences`: its own contract only bounds the length. What it does is stated by `Text.StripKeepsBacktickFreePrefix`, `Text.NoBacktickOnlyTrimmed` and `Text.FencedReplyYieldsBody`.
