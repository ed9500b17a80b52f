# Entity extraction and pipeline orchestration, modelled in Dafny

This project models the core of a rule-based intent parser: the four entity
detectors of `src/processors/extract.ts` (emails, phone numbers, URLs and
decimal numbers) with their entry points, the `normalize` stage of
`src/processors/normalize.ts`, and the `Pipeline` class of
`src/core/pipeline.ts`. It proves what these promise of the shared
`IntentResult` object.

The model keeps the source's imperative form:

- **Detectors.** Each detector is a `method` that walks the text with the
  source's own cursors and pushes onto `IntentResult.entities`. That list is a
  `seq` field of a class, updated in place. Each detector method is proved
  against a recursive specification function (`EmailsFound`, `PhonesFound`,
  `UrlsFound`, `NumbersFound`). Lemmas about those functions state what every
  pushed entity is:
  - a slice of the text (`value == text[start..end]` with `0 <= start < end <= |text|`);
  - of the right shape;
  - ordered and deduplicated as the source does it.
- **Entry points.** `extract` and the four `*Only` components catch a
  detector's failure.
  - Dafny has no exceptions, so a `Fault` argument says which push of which
    detector raises.
  - A detector returns an `Outcome` (`Completed` or `Raised`) and leaves
    behind the entities it pushed before raising: the `Truncate` of its
    specification.
- **Normalisation.** `normalize` rewrites the word tokens of the shared token
  `array` in place with a `for` loop.
- **Pipeline.**
  - `Pipeline` is a class whose `components` field the constructor, `use` and
    `addCustomProcessor` append to.
  - `process` is a loop over the components. It is proved equal to a
    left-to-right fold, `Run`, of the stage semantics `ApplyStage`.
  - A stage that throws is `None`: the fold stops there and `process` fails.
- **Pure predicates.** `isValidEmail`, `isValidUrl` and `isDigit` are pure
  functions in the source. They are predicates here: `IsValidEmail`,
  `IsValidUrl` and `Strings.IsDigit`. `getConfig` is `Pipeline.GetConfig`,
  which returns the `const` configuration fixed by the constructor.

Text is a `seq<char>`. A Dafny `char` is a Unicode scalar value, while a
JavaScript string is a sequence of UTF-16 code units; the difference is listed
under "## Left out". The regular-expression character classes are the ASCII
predicates `IsLocalChar`, `IsDomainChar` and `IsLabelChar`.

Some behaviours of the code are worth stating outright. The model has each of
them:

- After a rejected phone candidate, the phone scan moves on by one character,
  not past the consumed span (lines 175-198 of `extract.ts`). A run of 16
  digits therefore yields a phone made of its last 15
  (`RejectionMovesOneCharacter`).
- The phone test `validPhoneChars === phoneEnd - i` (line 178) is always true:
  both counters advance together. `ValidCharsTestVacuous` proves it, and
  `Accepted` leaves that test out.
- The URL delimiters are the space, `\n`, `\r`, `\t` and `<>()[]{}` only
  (lines 216-231). A trailing `,` or `?` stays in the URL.
- A number run may start with a `.` that follows an earlier run
  (`PointAfterDecimalStartsRun`: `"1.2.3"` gives `"1.2"` and `".3"`).
- The URL and number detectors do not deduplicate: the same URL or number at
  two places is pushed twice (`RepeatedUrlPushedTwice`,
  `RepeatedNumberPushedTwice`).
- Three checks in the source are kept by the methods that model them:
  - `url &&` in `extractUrls` (line 239): `UrlAt` and `UrlPush` test
    `url != ""`, which always holds there, since the span holds the protocol.
  - `validNumber` in `extractNumbers` (line 330): `NumberAt` tests it, and
    `ScanRun` proves that it holds exactly when `i > start`. The
    specification function `NumberPush` tests `e > start` alone.
  - the `iterations < maxIterations` bound of `extractPhones` (line 152):
    `ExtractPhones` keeps it, with the invariant `iterations <= i`.

## Model

| member | source | states |
|---|---|---|
| Strings.IndexOf | src/processors/extract.ts:210 | `indexOf` from a start position: the result is an occurrence at or after the start with no earlier one, and `None` exactly when there is no occurrence from the start on |
| Strings.Split | src/processors/extract.ts:132 | `split` with a non-empty string separator: the pieces between successive leftmost occurrences, left to right; `SplitFromShape` and `SplitTwoPieces` state its shape |
| Strings.IsDigit | src/processors/extract.ts:346-349 | `isDigit` on a character: it lies between '0' and '9'; the source's `undefined` case is not reached, since every call site indexes within the text |
| Strings.SplitTwoPieces | src/processors/extract.ts:254-255 | a `split` into exactly two pieces happens at the first occurrence `k` of the separator, with no occurrence starting at or after `k + |sep|`, and the pieces are the text before and after it |
| Results.Truncate | src/processors/extract.ts:7-11 | what a detector call leaves behind is a prefix of what it would push: exactly `index` entities when the fault fires, all of them otherwise |
| EmailDetector.IsValidEmail | src/processors/extract.ts:130-143 | `isValidEmail` check by check: an '@', a split into two non-empty parts, a '.' in the domain, and the two character classes; `ValidEmailIff` states what it accepts |
| EmailDetector.ValidEmailIff | src/processors/extract.ts:130-143 | `isValidEmail` accepts exactly the strings with a single '@', a non-empty local part over `[a-zA-Z0-9._%+-]` and a non-empty domain over `[a-zA-Z0-9.-]` that contains a '.'; the '@' of that shape is the only one |
| EmailDetector.ShapeHasOneAt | src/processors/extract.ts:132-133 | a string of the accepted shape has no '@' other than the one splitting it |
| EmailDetector.LocalStart | src/processors/extract.ts:87-97 | the backward scan stops at the window start or just after the first character that is not a local-part character, and everything it passes is a local-part character |
| EmailDetector.DomainEnd | src/processors/extract.ts:99-109 | the forward scan stops at the window end or at the first character that is not a domain character, and everything it passes is a domain character |
| EmailDetector.CandidateEnd | src/processors/extract.ts:85-109 | the candidate never extends past `i + 30` or the end of the text |
| EmailDetector.ScanLocalStart | src/processors/extract.ts:84-97 | the loop over `j` with its `break` and its `j === startSearch` case computes the candidate start `CandidateStart` |
| EmailDetector.ScanDomainEnd | src/processors/extract.ts:99-109 | the loop over `j` with its `break` and its `j === endSearch - 1` case computes the candidate end `CandidateEnd` |
| EmailDetector.CandidateAround | src/processors/extract.ts:84-116 | the two scans and the `isValidEmail` test find a candidate exactly when `CandidateAt` does, and the same one |
| EmailDetector.NewCandidateAt | src/processors/extract.ts:83-124 | one round of the outer loop keeps the scan state: a push is the next entity of `EmailsFound`, and its value joins `processedEmails` |
| EmailDetector.ExtractEmails | src/processors/extract.ts:78-128 | the call appends `EmailsFound(text)`, or its prefix before the push that raises, and raises exactly when the fault index is below the number of emails found; what is appended does not depend on the entities already present |
| EmailDetector.CandidateAtIsEmail | src/processors/extract.ts:111-122 | the candidate around an '@', if any, is a slice of the text anchored at that '@', within 30 characters of it on both sides, and of the accepted shape |
| EmailDetector.CandidatesAreEmails | src/processors/extract.ts:82-127 | every candidate of the scan is such an anchored, valid email slice |
| EmailDetector.DedupFirst | src/processors/extract.ts:113-123 | every value kept by the `processedEmails` check was not seen before, and the entity kept is the first candidate with that value |
| EmailDetector.DedupDistinct | src/processors/extract.ts:113-123 | no value is kept twice |
| EmailDetector.DedupValues | src/processors/extract.ts:113-123 | the values kept are exactly the candidate values not already seen |
| EmailDetector.EmailsFound | src/processors/extract.ts:78-128 | what one call pushes: the candidates around each '@', left to right, with values already pushed in the same call dropped; the lemmas below state its properties |
| EmailDetector.DedupKeepsFirst | src/processors/extract.ts:80-123 | the three facts above together: first occurrence wins, values distinct, none lost |
| EmailDetector.EmailsFoundAreEmails | src/processors/extract.ts:82-143 | every email a call pushes has exactly one '@', at most 30 characters before and after it, a valid local part and domain, and is a slice of the text |
| EmailDetector.EmailsFoundFirstWins | src/processors/extract.ts:80-123 | within one call no email value is pushed twice, each pushed email is the first candidate with its value, and every candidate value is pushed |
| EmailDetector.EmailsFoundSlices | src/processors/extract.ts:117-122 | every pushed email is an email-typed slice of the text |
| PhoneDetector.PhoneEnd | src/processors/extract.ts:160-173 | the greedy scan stops at the 20-character limit or at the first character that is neither a digit nor a separator, and passes only such characters |
| PhoneDetector.AllDigitsCount | src/processors/extract.ts:164-166 | in a run of digits, every character counts as a digit |
| PhoneDetector.ScanPhone | src/processors/extract.ts:157-173 | the `while` loop computes `PhoneEnd`, `digitCount` as the digits in the span, and `validPhoneChars` as the span's length |
| PhoneDetector.ValidCharsTestVacuous | src/processors/extract.ts:175-179 | the test `validPhoneChars === phoneEnd - i` holds for every candidate |
| PhoneDetector.CandidateAt | src/processors/extract.ts:155-179 | a candidate is accepted exactly when it starts with a digit, '+' or '(' and its span has 10 to 15 digits; an accepted span is at least 10 characters long |
| PhoneDetector.FindPhone | src/processors/extract.ts:181-189 | the `find`/`some` pair finds nothing exactly when no phone entity with that value is in the list, and what it finds is such an entity |
| PhoneDetector.PhoneAt | src/processors/extract.ts:155-198 | one round of the loop keeps the scan state: a push is the next entity of `PhonesFound`; after an accepted candidate the scan resumes at its end, otherwise at the next character |
| PhoneDetector.ExtractPhones | src/processors/extract.ts:145-201 | the call appends `PhonesFound(text, entities)`, or its prefix before the push that raises, and raises exactly when the fault index is below the number of phones found |
| PhoneDetector.HasPhone | src/processors/extract.ts:181-189 | the `find`/`some` lookup: some entity of the list is a phone with that value |
| PhoneDetector.PhoneScan | src/processors/extract.ts:150-200 | what the scan pushes from a position on, given the list as it stands: an accepted candidate not already listed is pushed and the scan resumes at its end, otherwise at the next character |
| PhoneDetector.ScanSkips | src/processors/extract.ts:156-198 | one-step unfolding of `PhoneScan`: where no candidate is accepted, the scan from `i` is the scan from `i + 1` |
| PhoneDetector.ScanTakes | src/processors/extract.ts:180-197 | one-step unfolding of `PhoneScan`: at an accepted candidate the scan pushes it unless a phone with its value is already listed, and either way continues from its end |
| PhoneDetector.AcceptedCandidate | src/processors/extract.ts:175-195 | an accepted candidate is a phone entity: a slice starting with a digit, '+' or '(', at most 20 characters of digits and separators, 10 to 15 of them digits |
| PhoneDetector.PhoneScanEntities | src/processors/extract.ts:150-200 | everything the scan pushes from a position on is a phone entity starting at or after that position |
| PhoneDetector.PhoneScanOrdered | src/processors/extract.ts:150-200 | the phones pushed are in increasing order and do not overlap |
| PhoneDetector.PhoneScanFresh | src/processors/extract.ts:181-196 | no pushed phone repeats the value of a phone already listed, whether it was there before the call or pushed earlier in it |
| PhoneDetector.PhonesFoundArePhones | src/processors/extract.ts:145-201 | every phone a call pushes is a phone entity; the phones are ordered, non-overlapping, and never duplicate a listed phone value |
| PhoneDetector.PhonesFoundSlices | src/processors/extract.ts:190-195 | every pushed phone is a phone-typed slice of the text |
| PhoneDetector.RejectionMovesOneCharacter | src/processors/extract.ts:175-198 | on 16 digits, the candidate at 0 is rejected (16 digits) and the scan moves one character, so the phone pushed is the last 15 digits, at 1..16 |
| UrlDetector.IsValidUrl | src/processors/extract.ts:253-275 | `isValidUrl` check by check: a split at "://" into two parts, the protocol "http" or "https", a non-empty host before the first '/', and at least two labels between its dots; `ValidUrlIff` states what it accepts |
| UrlDetector.ValidUrlSplits | src/processors/extract.ts:253-275 | a URL `isValidUrl` accepts has a single "://", after "http" or "https", and a host of dotted labels |
| UrlDetector.SplitUrlValid | src/processors/extract.ts:253-275 | every string of that shape is accepted |
| UrlDetector.ValidUrlIff | src/processors/extract.ts:253-275 | `isValidUrl` accepts exactly the strings with a single "://" after "http" or "https" whose host (the text before the first '/') is two or more non-empty dot-separated labels over `[a-zA-Z0-9-]` |
| UrlDetector.HostCheckIff | src/processors/extract.ts:265-272 | splitting the host at '.' gives at least two pieces, all labels, exactly when the host is a dotted name |
| UrlDetector.LabelsSplit | src/processors/extract.ts:265-272 | a suffix made of labels separated by single dots splits into labels only |
| UrlDetector.SplitLabels | src/processors/extract.ts:265-272 | a suffix that splits into labels only is labels separated by single dots |
| UrlDetector.FirstPieceIsHost | src/processors/extract.ts:262 | the first piece of `path.split("/")` is the text before the first '/' |
| UrlDetector.UrlEnd | src/processors/extract.ts:213-236 | the URL runs to the first delimiter (space, `\n`, `\r`, `\t` or one of `<>()[]{}`) or the end of the text, passing only non-delimiters |
| UrlDetector.NextSearch | src/processors/extract.ts:248 | the search position always moves forward, to the URL end when that lies ahead |
| UrlDetector.UrlStep | src/processors/extract.ts:210-248 | every round of the search resumes strictly further on, so the search terminates |
| UrlDetector.ScanUrlEnd | src/processors/extract.ts:213-236 | the inner `while` loop computes `UrlEnd` |
| UrlDetector.UrlAt | src/processors/extract.ts:209-248 | one round of the search loop keeps the scan state: a push is the next entity of `UrlsFound`, and the search resumes strictly further on |
| UrlDetector.SearchProtocol | src/processors/extract.ts:208-249 | the search for one protocol pushes the URLs of its scan, or stops at the push that raises |
| UrlDetector.SearchNext | src/processors/extract.ts:207-249 | one iteration of the protocol loop extends what was pushed by that protocol's URLs, or raises having pushed exactly the fault's prefix |
| UrlDetector.SearchProtocols | src/processors/extract.ts:207-250 | the protocol loop appends the URLs of all protocols in turn, or their prefix before the push that raises |
| UrlDetector.ExtractUrls | src/processors/extract.ts:203-251 | the call appends `UrlsFound(text)`, or its prefix before the push that raises, and raises exactly when the fault index is below the number of URLs found |
| UrlDetector.UrlScan | src/processors/extract.ts:208-249 | what the search for one protocol pushes from a position on: at each occurrence, the span to the next delimiter when it is a valid URL, resuming at the span's end |
| UrlDetector.UrlPushShape | src/processors/extract.ts:238-246 | a URL pushed at an occurrence of a protocol is a delimiter-free, valid slice starting with that protocol, running from the occurrence to the URL end |
| UrlDetector.UrlScanEntities | src/processors/extract.ts:209-249 | everything the search for a protocol pushes from a position on is such a URL, starting at or after that position |
| UrlDetector.UrlScanOrdered | src/processors/extract.ts:209-249 | the URLs of one protocol are in increasing order and do not overlap |
| UrlDetector.UrlsFoundSplit | src/processors/extract.ts:205-207 | a call pushes all `http://` URLs before all `https://` URLs |
| UrlDetector.UrlsFoundAreUrls | src/processors/extract.ts:205-246 | every URL pushed is a delimiter-free, valid slice of the text starting with its protocol: the `http://` ones first, then the `https://` ones |
| UrlDetector.UrlsFoundOrdered | src/processors/extract.ts:207-249 | the URLs of each protocol are in increasing order and do not overlap |
| UrlDetector.RepeatedUrlPushedTwice | src/processors/extract.ts:203-251 | URLs are not deduplicated: on two copies of "http://a.b" both are pushed, at 0..10 and at 11..21 |
| UrlDetector.UrlsFoundSlices | src/processors/extract.ts:240-245 | every pushed URL is a URL-typed slice of the text |
| NumberDetector.SkipToRun | src/processors/extract.ts:282-291 | the skip stops at the first digit or '.', or at the end of the text, passing neither |
| NumberDetector.NumberScan | src/processors/extract.ts:281-343 | what the scan pushes from a position on: each run the skip reaches, when `isNumber` accepts it, resuming at its end or one past an empty run |
| NumberDetector.RunShape | src/processors/extract.ts:299-328 | a run holds only digits and points with a digit on each side, at most one point, and ends on a digit when non-empty |
| NumberDetector.NumberStep | src/processors/extract.ts:281-342 | every round of the outer loop moves the index strictly forward, so the scan terminates |
| NumberDetector.NumberPushShape | src/processors/extract.ts:330-339 | a pushed number is a number entity spanning the run |
| NumberDetector.NumberScanEntities | src/processors/extract.ts:281-343 | everything the scan pushes from a position on is a number entity starting at or after that position |
| NumberDetector.NumberScanOrdered | src/processors/extract.ts:281-343 | the numbers pushed are in increasing order and do not overlap |
| NumberDetector.NumbersFoundAreNumbers | src/processors/extract.ts:277-344 | every number a call pushes is a slice of digits with at most one '.', which has digits just before and after it in the text, and is accepted by `isNumber`; the numbers are ordered and do not overlap |
| NumberDetector.NumbersFoundSlices | src/processors/extract.ts:333-338 | every pushed number is a number-typed slice of the text |
| NumberDetector.PointAfterDecimalStartsRun | src/processors/extract.ts:308-321 | on "1.2.3" the second point does not extend the run, and a new run starts at it: the numbers pushed are "1.2" at 0..3 and ".3" at 3..5 |
| NumberDetector.RepeatedNumberPushedTwice | src/processors/extract.ts:277-344 | numbers are not deduplicated: on "1 1" both occurrences of "1" are pushed, at 0..1 and at 2..3 |
| NumberDetector.SkipNonNumeric | src/processors/extract.ts:282-291 | the inner skipping loop computes `SkipToRun` |
| NumberDetector.ScanRun | src/processors/extract.ts:295-328 | the run loop computes `RunEnd`, and `validNumber` holds exactly when the run is non-empty |
| NumberDetector.NumberAt | src/processors/extract.ts:282-342 | one round of the outer loop keeps the scan state: a push is the next entity of `NumbersFound`, and the index moves forward |
| NumberDetector.ExtractNumbers | src/processors/extract.ts:277-344 | the call appends `NumbersFound(text)`, or its prefix before the push that raises, and raises exactly when the fault index is below the number of numbers found |
| Extraction.Extract | src/processors/extract.ts:4-32 | `extract` returns the object it was given, leaves its tokens as they were, and sets its entities to `Extracted`: the four detectors in turn, each failure caught |
| Extraction.Extracted | src/processors/extract.ts:4-32 | the entity list after `extract`: the email, phone, URL and number detectors' outputs appended in turn, each cut at its fault, the phone detector seeing the emails just added |
| Extraction.ExtractedInOrder | src/processors/extract.ts:4-32 | `extract` only appends: earlier entities stay, and the entities added are slices of the text, emails first, then phones, URLs and numbers, whichever detectors raise |
| Extraction.DetectorOutputsInOrder | src/processors/extract.ts:7-29 | the outputs of the four detectors, appended in turn, keep the earlier entities and come grouped by detector |
| Extraction.ExtractEmailsOnly | src/processors/extract.ts:34-43 | returns the same object, with the email detector's output appended whether or not it raised, and its tokens unchanged |
| Extraction.ExtractPhonesOnly | src/processors/extract.ts:45-54 | returns the same object, with the phone detector's output appended whether or not it raised, and its tokens unchanged |
| Extraction.ExtractUrlsOnly | src/processors/extract.ts:56-65 | returns the same object, with the URL detector's output appended whether or not it raised, and its tokens unchanged |
| Extraction.ExtractNumbersOnly | src/processors/extract.ts:67-76 | returns the same object, with the number detector's output appended whether or not it raised, and its tokens unchanged |
| Normalization.Lowered | src/processors/normalize.ts:7-11 | normalisation keeps the number, order and types of the tokens, lower-cases the value of every word token and leaves every other token unchanged |
| Normalization.LoweredIdempotent | src/processors/normalize.ts:8-10 | with an idempotent case mapping, normalising twice is normalising once |
| Normalization.LoweredAppend | src/processors/normalize.ts:7-11 | tokens are normalised one by one, independently of each other |
| Normalization.Normalize | src/processors/normalize.ts:4-13 | the `forEach` rewrites the token array in place to `Lowered` of its old contents, leaves the entities alone and returns the same object |
| Pipelines.ApplyStage | src/core/pipeline.ts:59 | one `await component(result)`: normalisation, the extraction components and `extract` as modelled above, which never throw; `clean`, `segment` and custom components as given, `None` when they throw |
| Pipelines.Run | src/core/pipeline.ts:58-60 | the `for` loop over the components: each stage applied to the previous result, stopping at the first that throws |
| Pipelines.RunAppend | src/core/pipeline.ts:58-60 | running two stage lists one after the other is running their concatenation; a failure in the first list stops everything |
| Pipelines.RunFailureAborts | src/core/pipeline.ts:58-60 | a stage that throws makes the whole run fail: later stages do not run |
| Pipelines.RunSnoc | src/core/pipeline.ts:58-60 | running one more stage applies it to the result so far |
| Pipelines.ApplyBuiltIn | src/core/pipeline.ts:59 | a normalisation or extraction stage never throws, keeps the text and the number of tokens, and only appends entities |
| Pipelines.RunBuiltIns | src/core/pipeline.ts:58-60 | a run of normalisation and extraction stages never throws, keeps the text and the number of tokens, and the entities only accumulate |
| Pipelines.InitialStages | src/core/pipeline.ts:32-42 | the components the constructor registers, in order: each built-in stage behind its flag, the four extraction components also behind `enableExtraction` |
| Pipelines.InitialStagesGated | src/core/pipeline.ts:32-42 | after construction each built-in stage is registered exactly when its flags ask for it, an extraction component only when extraction is enabled as well; the combined `extract` and custom components are never registered |
| Pipelines.ExtractionStagesIn | src/core/pipeline.ts:35-40 | the extraction block holds each `*Only` component exactly when its own flag is set |
| Pipelines.ExtractionStagesOrdered | src/core/pipeline.ts:35-40 | the extraction components come in the order emails, phones, URLs, numbers |
| Pipelines.InitialStagesOrdered | src/core/pipeline.ts:32-42 | the registered stages follow the order normalise, clean, emails, phones, URLs, numbers, segment |
| Pipelines.InitialStagesOnce | src/core/pipeline.ts:32-42 | the constructor registers no stage twice |
| Pipelines.Initial | src/core/pipeline.ts:51-56 | `process` starts from the caller's text unchanged and an empty entity list |
| Pipelines.RunStage | src/core/pipeline.ts:59 | one stage on the shared object: it succeeds exactly when `ApplyStage` does, and the object it returns (the same one or a new one) holds `ApplyStage`'s result |
| Pipelines.Pipeline.constructor | src/core/pipeline.ts:23-43 | the component list after construction is `InitialStages(config)`; the configuration is the one given, and the tokenizer is the one built from its tokenizer options |
| Pipelines.Pipeline.UseIf | src/core/pipeline.ts:32-42 | a guarded `use` call appends its stage when the flag is set and nothing otherwise |
| Pipelines.Pipeline.Use | src/core/pipeline.ts:45-48 | appends exactly one stage at the end, keeps the earlier ones, and returns the same pipeline |
| Pipelines.Pipeline.AddCustomProcessor | src/core/pipeline.ts:69-72 | appends exactly one stage at the end, keeps the earlier ones, and returns the same pipeline |
| Pipelines.Pipeline.Process | src/core/pipeline.ts:50-63 | `process` fails exactly when the left-to-right run of the components from `{text, tokenize(text), []}` fails; otherwise it returns an object holding that run's result |

## Left out

- Logging: the `console.warn` calls in the `catch` blocks of `extract.ts` are not modelled. A caught failure only shows up as the `Outcome` of the detector call.
- Exceptions are modelled by a `Fault` argument: the k-th push of one detector call raises. A JavaScript detector throws at a push when the `entities` array is frozen or not extensible (`Array.prototype.push` raises a `TypeError`), which `FailAtPush(0)` covers, or through resource exhaustion.
- `isNumber` (`parseFloat`/`isFinite`, floating point) is the parameter `isNumber: string -> bool`.
- `toLowerCase` (Unicode case mapping) is the parameter `lower: string -> string`.
- The `Tokenizer` class is not part of this model. The constructor takes a function from tokenizer options to a tokenizing function.
- `clean` and `segment` are not part of this model. They are functions of the `Env` argument that may throw (`None`).
- A custom component is the function it computes on the result's value. In-place changes it makes before it throws are not visible: `process` fails and its result is dropped.
- Token objects are values: the model does not capture a token object shared between two results, or a token object changed through another reference.
- `src/config/loader.ts` (file reading, YAML parsing, merging with defaults) is not part of this model. The constructor takes the loaded configuration as a `Config` value.
- `async`/`await` in `process`: stages run one after another, as plain calls.
- Pipelines.Pipeline.GetConfig: has no contract of its own. The configuration is a `const` field set by the constructor (see its row), so it cannot change.
- Regular expressions are modelled only as their ASCII character classes.
- Text is a sequence of Dafny `char`s, which are Unicode scalar values, not UTF-16 code units. A lone surrogate cannot be represented. A character outside the Basic Multilingual Plane is one position here but two code units in JavaScript, so on such text every `start` and `end` differs from the program's.
- Pipelines.ApplyStage: one `Faults` value (where each detector raises) holds for a whole `process` run. A detector stage registered twice fails at the same push in both calls; different failures per call are not expressed. Likewise `clean` and `segment` are the same function in every call.
