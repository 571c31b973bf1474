# DeepSeek-OCR FastAPI service: a verified model of its core

This project models the core of an HTTP service that runs the DeepSeek-OCR
vision-language model on uploaded images. The core has three parts:

- **The tagged-output parser** (`ImageUtils`, `DetParser`). The recognizer's text marks
  each region it found as `<|ref|>LABEL<|/ref|><|det|>[[x1, y1, x2, y2], ...]<|/det|>`.
  The parser finds those spans left to right, as the lazy, dot-all regular
  expression does. It splits them into picture spans and other spans, and
  builds one block per span: the label, the quads, and the first non-blank line after it.
  It then scales the 0..999 quads to pixel rectangles with four clockwise corners.
- **The inference service** (`OcrService`). It chooses the prompt from the task type,
  looks up the resolution profile with its `gundam` fallback, and chooses between
  a multimodal and a text-only engine request. It collects the engine's stream of
  snapshots and sets the processor's two sizes for the call, always putting them back.
  Finally it rebuilds markdown from the raw text by ordered `str.replace`.
- **The task registry** (`OcrEndpoint`). It checks an upload (extension, resolution, task type),
  inserts a pending record, and runs a task under a counting permit pool. A task goes
  pending → processing → completed or failed. The registry also supports lookup and listing.

`Config` holds the constant tables and the environment flags. `Schemas` holds the
record shapes with their defaults. `Strings` holds the parts of Python's `str`
behaviour the code relies on: `strip`, `splitlines`, `in`, `find`, `replace`,
`lower`, `int()` and `str()`. `Results` holds `Option` and `Result`.

The model's choices:

- The engine, the image tokenizer and the image loader are foreign code. They are
  passed in as values: an engine maps a request to the snapshots it streams and an
  optional exception message, and a tokenizer maps settings and an image to features
  or an exception.
- The task id from `uuid4` and the time from `time.time` are parameters.
- Methods that mirror loops and state changes are proved against specification
  functions, and the properties are proved as lemmas about those functions.

Three points of the code's behaviour that the model keeps:

- A span is a picture span when its whole text contains `<|ref|>image<|/ref|>`.
  A span labelled exactly `image` is always one (`ImageLabelIsImage`). A span with
  another label can be one too, when its label or its box text holds that text.
- Pixel coordinates are truncated (`int(...)`), not rounded.
- Coordinates above 999 are not rejected. They scale past the image edge, as long
  as the scaled value stays within the range of a Python float (see `ImageUtils.Scale`
  under "Left out").

## Model

| member | source | states |
|---|---|---|
| Config.ResolutionTable | app/core/config.py:45-51 | exactly the five profiles `tiny`, `small`, `base`, `large`, `gundam` with their literal sizes; only `gundam` crops, and the fallback name is a key |
| Config.PromptTable | app/core/config.py:54-59 | exactly four task prompts, every one beginning with `<image>` and a newline |
| Config.PlaceholderOnlyInLocate | app/core/config.py:54-59 | a template contains `{reference_text}` if and only if it is `locate_object`'s |
| Config.DefaultPromptIsMarkdown | app/core/config.py:26 | with `PROMPT` unset, the default prompt is the `markdown` template |
| Config.ExtensionTable | app/core/config.py:38 | six allowed extensions, each a dot then lower-case text |
| Config.EnvFlagSpelling | app/core/config.py:13 | a flag is set if and only if its value is four characters that lower-case to `true`; blanks are not stripped |
| Config.EnvFlagIgnoresCase | app/core/config.py:22-23 | lower-casing the setting first does not change the flag |
| Config.FlagDefaults | app/core/config.py:13-62 | unset, `CROP_MODE` and `SKIP_REPEAT` are on, `PRINT_NUM_VIS_TOKENS`, `OCR_RELOAD` and `OCR_WARMUP_ENABLED` off |
| Config.FlagSpellings | app/core/config.py:13 | `True` and `TRUE` set a flag; `1`, `yes` and ` true` do not |
| Config.MaxConcurrencyValue | app/core/config.py:18 | unset `MAX_CONCURRENCY` is 10; a decimal numeral of at most 4300 digits gives its value, and a longer one is refused, as `int()` raises `ValueError` |
| Schemas.StatusNames | app/models/schemas.py:29 | the four status names and the statuses correspond one to one, both directions |
| Schemas.NewTaskStatus | app/models/schemas.py:26-33 | the three required fields as given, `result`, `error` and `completed_at` absent |
| Schemas.DefaultOcrRequest | app/models/schemas.py:9-15 | visualization on, resolution `gundam`, task type `markdown`, no prompt and no reference text |
| Schemas.NewOcrResponse | app/models/schemas.py:18-23 | id and status as given, no result and no error |
| Strings.Strip | app/utils/image_utils.py:47-48 | the result starts and ends with a non-whitespace character, and is empty if and only if the input is all whitespace |
| Strings.StripIsSlice | app/utils/image_utils.py:47-48 | stripping removes whitespace at the two ends and nothing else |
| Strings.SplitLinesNoBreaks | app/utils/image_utils.py:60 | no line from `splitlines` holds a line boundary |
| Strings.ParseIntOfIntToString | app/api/endpoints/ocr.py:27 | `int(str(i)) == i` for every integer whose numeral has at most 4300 digits, and `int()` refuses the others |
| Strings.ReplaceAllSkip | app/services/ocr_service.py:176-178 | a prefix in which the pattern starts nowhere passes through `replace` unchanged |
| Strings.ReplaceKeepsOut | app/services/ocr_service.py:168-179 | after `replace`, a pattern that was absent (or was the one replaced) is absent, when neither the pattern nor the replacement can start inside the other |
| DetParser.TokenOf | app/utils/image_utils.py:51 | a lexeme is a number token if and only if it is a run of decimal digits that is either all zeros (so `0` and `000` but not `07`) or does not start with `0` and has at most 4300 digits, and a bracket or comma token if and only if it is that character |
| DetParser.QuadAt | app/utils/image_utils.py:172 | a quad is read only from `[`, four numbers separated by commas, and `]`, with one optional comma before the `]`; the quad holds those four numbers in order, and the reading ends right after the `]` (nine tokens on, or ten with the comma) |
| DetParser.ListRoundTrip | app/utils/image_utils.py:77 | every quad list written as `[[x1, y1, x2, y2], ...]` whose numerals have at most 4300 digits is read back as the same list |
| DetParser.ReadableBelow | app/utils/image_utils.py:77 | every number below `10^k` for `k` up to 4300, and so every 0..999 coordinate, is written with a numeral the parser reads |
| DetParser.LongCoordinateRefused | app/utils/image_utils.py:77 | a list whose first coordinate has more than 4300 digits is refused, as `eval` raises `SyntaxError` on such a numeral |
| DetParser.LeadingBlanks | app/utils/image_utils.py:77 | a leading space or a leading line break is skipped, but a line break then a space makes the first line indented and the text is refused, as `eval` raises `IndentationError` |
| DetParser.TrailingBlanks | app/utils/image_utils.py:77 | after the closing bracket a line break, spaces, or a blank line ended by a line break are skipped, but a line break then a space at the very end opens an indented line and the text is refused, as `eval` raises `IndentationError` |
| DetParser.LeadingText | app/utils/image_utils.py:77 | blanks put in front of a bracketed text keep its reading, and the text is refused exactly when those blanks hold a line break or a form feed and end in a space or a tab |
| DetParser.TrailingText | app/utils/image_utils.py:77 | blanks after a bracketed text keep its reading, and the text is refused exactly when those blanks hold a `\n` or `\r` and end in a space or a tab |
| ImageUtils.MatchAt | app/utils/image_utils.py:26 | a match at a position has the markers in place, the label ends at the first `<\|/ref\|><\|det\|>` and the det text at the first `<\|/det\|>` after it |
| ImageUtils.MatchAtIsLeast | app/utils/image_utils.py:26 | of all the ways the pattern fits at a position, the scanner picks the shortest label, then the shortest det text, as the lazy expression does |
| ImageUtils.ScanSound | app/utils/image_utils.py:27 | every reported span is the pattern's match at its own start |
| ImageUtils.ScanOrdered | app/utils/image_utils.py:27 | the spans come left to right without overlapping |
| ImageUtils.ScanComplete | app/utils/image_utils.py:27 | the pattern matches at no position that a reported span does not cover |
| ImageUtils.FindAll | app/utils/image_utils.py:27 | one match per reported span |
| ImageUtils.MatchShape | app/utils/image_utils.py:26-27 | each match's whole text is the markers around its two groups, and the groups hold no closing marker |
| ImageUtils.ReMatch | app/utils/image_utils.py:24-36 | returns all matches, the picture spans and the other spans, in match order |
| ImageUtils.SplitAppend | app/utils/image_utils.py:31-35 | both lists keep the relative order of the matches |
| ImageUtils.SplitPartitions | app/utils/image_utils.py:31-35 | the two lists together hold every match's text exactly once (as multisets) |
| ImageUtils.SplitMembership | app/utils/image_utils.py:32-35 | a text is in the picture list if and only if it is a match containing `<\|ref\|>image<\|/ref\|>`, and in the other list if and only if it is a match that does not |
| ImageUtils.ImageLabelIsImage | app/utils/image_utils.py:32 | a match labelled exactly `image` is a picture span |
| ImageUtils.FirstNonBlankIndex | app/utils/image_utils.py:59-64 | every earlier line is blank, and the line found is not |
| ImageUtils.FirstNonBlank | app/utils/image_utils.py:59-64 | the first line is empty if and only if every line is blank |
| ImageUtils.FirstLine | app/utils/image_utils.py:59-64 | the early-exit loop finds exactly the first non-blank line |
| ImageUtils.ContentBounds | app/utils/image_utils.py:55-56 | the content of a block runs from the end of its match to the start of the next match or the end of the text |
| ImageUtils.ParseBlocksWithText | app/utils/image_utils.py:39-70 | one block per match, block `j` built from match `j` and the text up to match `j + 1` |
| ImageUtils.BuildBlock | app/utils/image_utils.py:47-69 | the stripped label, the quads of the stripped det text (empty when it does not parse), and the first non-blank line of the stripped following text |
| ImageUtils.PointsOfRendered | app/utils/image_utils.py:48-53 | a det text in the recognizer's form, with blanks around it and numerals of at most 4300 digits, gives back its quads |
| ImageUtils.ExtractCoordinatesAndLabel | app/utils/image_utils.py:73-81 | succeeds if and only if the det text parses, and then returns the label as captured |
| ImageUtils.ExtractRendered | app/utils/image_utils.py:73-81 | a region with a rendered det text whose numerals have at most 4300 digits yields its own label and quads |
| ImageUtils.Scale | app/utils/image_utils.py:174-177 | the pixel is the truncated quotient: `p * 999 <= c * dim < (p + 1) * 999` |
| ImageUtils.ScaleBounds | app/utils/image_utils.py:174-177 | 0 maps to 0, 999 to the full size, 0..999 into 0..dim, and scaling is monotone |
| ImageUtils.CornersInBounds | app/utils/image_utils.py:178-183 | for coordinates up to 999 the four corners lie in the image and trace an axis-aligned rectangle; when `x1 <= x2` and `y1 <= y2` they run top-left, top-right, bottom-right, bottom-left, clockwise with y pointing down |
| ImageUtils.QuadResultsAt | app/utils/image_utils.py:171-189 | one result per quad, result `k` built from quad `k` |
| ImageUtils.RegionResultsCases | app/utils/image_utils.py:163-191 | a region whose det text does not parse gives nothing; otherwise each result has the label, the non-empty content at the region's index or else the label, confidence 1.0, and the quad's corners |
| ImageUtils.ConvertMatchesToResults | app/utils/image_utils.py:153-192 | the results of all regions concatenated in region order; none for no matches |
| ImageUtils.ConvertRegion | app/utils/image_utils.py:163-191 | one turn of the outer loop is the region's results |
| ImageUtils.QuadsToResults | app/utils/image_utils.py:171-189 | the inner loop produces one result per quad, in quad order |
| OcrService.SelectPromptCases | app/services/ocr_service.py:97-103 | `locate_object` with a non-empty reference gives the substituted template, another known task type its template, and anything else itself |
| OcrService.LocatePromptReference | app/services/ocr_service.py:98-99 | the reference can be read back from the substituted prompt, so different references give different prompts |
| OcrService.PilPromptNeverSubstitutes | app/services/ocr_service.py:202-206 | the picture service chooses the prompt the task service chooses without a reference, and `locate_object` keeps its placeholder there |
| OcrService.ResolutionFallback | app/services/ocr_service.py:209-210 | a known name keeps its profile and an unknown one gets the `gundam` profile; the lookup at line 106 and the renaming here give the same profile |
| OcrService.BuildRequestCases | app/services/ocr_service.py:55-65 | a request exists if and only if the prompt is non-empty; it is multimodal if and only if there are image features and the prompt contains `<image>`; the prompt is sent unchanged |
| OcrService.StreamGenerate | app/services/ocr_service.py:31-78 | the engine check comes first; the result is the last snapshot's text or the exception; the printed text is each snapshot's part beyond the previous length, then a blank line on normal end |
| OcrService.LastOutputIsLast | app/services/ocr_service.py:67-75 | a text is returned if and only if some snapshot has outputs; it is the first output of a snapshot after which no snapshot has outputs |
| OcrService.EchoOfGrowingStream | app/services/ocr_service.py:69-74 | when each snapshot extends the previous one, the printed pieces add up to the returned text |
| OcrService.EchoOfRewrittenStream | app/services/ocr_service.py:69-74 | a snapshot that rewrites its text prints only what runs past the old length: `abc` then `xy` prints `abc` and returns `xy` |
| OcrService.Infer | app/services/ocr_service.py:108-139 | with no processor, the error; otherwise tokenizing uses the profile's sizes and crop flag, and both processor sizes are restored on every path |
| OcrService.ReconstructMarkdown | app/services/ocr_service.py:168-179 | the two loops compute the ordered replacements: picture span `idx` becomes its link, each other span is deleted and followed by the two math rewrites |
| OcrService.SearchFindsSpans | app/utils/image_utils.py:26-27 | in a text made of plain runs and spans whose parts hold no `<`, the regex search finds exactly the spans, in order |
| OcrService.ScanPieces | app/utils/image_utils.py:26-27 | from any piece boundary the scanner reports one match per span piece, in order, each covering that span's text |
| OcrService.MatchAtSpan | app/utils/image_utils.py:26 | a span whose label and box text hold no `<` is the lazy pattern's match at its start |
| OcrService.SpanIsPicture | app/utils/image_utils.py:31-35 | with no `<` in its parts, a span is a picture span if and only if its label is `image` |
| OcrService.NoPictureSpans | app/utils/image_utils.py:31-35 | matches none of which is a picture span all go, in order, to the other spans |
| OcrService.MarkdownOfTaggedText | app/services/ocr_service.py:159-179 | for a text of plain runs and spans with no `<` or backslash in their parts and no label `image`, the search lists its spans as the other spans and the rebuilt markdown is exactly the plain runs, with no `<\|ref\|>` |
| OcrService.ProcessedTextOfTaggedText | app/services/ocr_service.py:159-185 | for such an engine text, the result's processed text is its plain runs |
| OcrService.OtherSpansDeleted | app/services/ocr_service.py:175-179 | when the text after the links is plain runs and spans, none of whose parts holds `<` or a backslash, and the other spans are its spans, the markdown is exactly the plain runs and holds no `<\|ref\|>` |
| OcrService.DropSpans | app/services/ocr_service.py:175-179 | after `n` turns of the deletion loop the text is the pieces without the spans listed in the first `n` entries, everything else untouched |
| OcrService.DeleteSpan | app/services/ocr_service.py:176-178 | deleting one span's text removes exactly the spans equal to it, and no plain text |
| OcrService.SpanAligned | app/utils/image_utils.py:26 | a span's text can occur inside another span only at its start, and then the two have the same label and box text |
| OcrService.MacroInLaterSpanSurvives | app/services/ocr_service.py:175-179 | a first span followed by a span labelled `\coloneqq`, both listed, leaves the second span in the markdown with the label `:=` |
| OcrService.CleanMathRemovesMacros | app/services/ocr_service.py:177 | after the two math rewrites neither `\coloneqq` nor `\eqqcolon` remains |
| OcrService.MathRewritesNeedOtherSpans | app/services/ocr_service.py:174-179 | with an other span, no macro survives; with none, the result is only the picture replacement |
| OcrService.ImageLinkShape | app/services/ocr_service.py:171 | a link begins with `!` and holds no `<` |
| OcrService.ImagesAllReplaced | app/services/ocr_service.py:168-172 | no picture span survives the link replacement |
| OcrService.RepeatedImageSpan | app/services/ocr_service.py:168-172 | a picture span listed twice is consumed by its first index, not linked to the second |
| OcrService.ProcessOcrTask | app/services/ocr_service.py:81-192 | the result or the exception of the task, with the processor sizes restored |
| OcrService.TaskResultFields | app/services/ocr_service.py:141-186 | the result keeps the text and the request; processed text and markdown path exist if and only if visualization was asked for and the prompt contains `<image>`; the visualization path exists if and only if, in addition, there is a match |
| OcrService.ProcessOcrErrors | app/services/ocr_service.py:92-110 | an image that failed to load, a missing processor and a missing engine each end the task with an error; without the image tag in the prompt a missing engine is exactly "engine not initialized", with it that or the tokenizer's exception |
| OcrService.Contents | app/services/ocr_service.py:245 | one content per match |
| OcrService.RunDeepseekOnPil | app/services/ocr_service.py:195-255 | the raw text, the rebuilt markdown and the rectangles of the blocks' contents, with the processor sizes restored |
| OcrService.PilContentsAligned | app/services/ocr_service.py:243-246 | the box text of region `j` is the content of block `j` |
| OcrEndpoint.SuffixShape | app/api/endpoints/ocr.py:56 | a suffix is empty or a dot and at least one character without dots or slashes, at the end of the name |
| OcrEndpoint.SuffixOfStemAndExtension | app/api/endpoints/ocr.py:56 | `stem.ext` has the suffix `.ext`, letters in their own case |
| OcrEndpoint.SuffixNeedsInnerDot | app/api/endpoints/ocr.py:56 | a name with no dot, only a leading dot, or a trailing last dot has no suffix |
| OcrEndpoint.ValidationCases | app/api/endpoints/ocr.py:55-66 | accepted if and only if the lower-cased suffix is allowed, the resolution is a profile, and the task type is a template or starts with `<`; the first failing check decides the answer |
| OcrEndpoint.AcceptedCustomPrompt | app/api/endpoints/ocr.py:65 | an accepted task type that is not a template becomes the prompt verbatim and starts with `<` |
| OcrEndpoint.NoSuffixRejected | app/api/endpoints/ocr.py:56-58 | a file without a suffix is refused |
| OcrEndpoint.PermitCapacityDefault | app/api/endpoints/ocr.py:27 | unset, the pool holds `min(MAX_CONCURRENCY, 3)` permits, 3 with the defaults; set to a numeral of at most 4300 digits, that many; a longer numeral is refused, as `int()` raises |
| OcrEndpoint.RecordLifecycle | app/api/endpoints/ocr.py:132-144 | a started and finished record is terminal with its finish time; it has a result if and only if completed and an error if and only if failed; its id and creation time are kept |
| OcrEndpoint.OutcomeOf | app/api/endpoints/ocr.py:140-143 | a failure is recorded with the exception's message |
| OcrEndpoint.TaskRegistry.GetTaskStatus | app/api/endpoints/ocr.py:148-153 | the stored record if and only if the id is known, a 404 otherwise; under the invariant the record carries the id and has its life-cycle shape |
| OcrEndpoint.ShapeKept | app/api/endpoints/ocr.py:78-144 | a new pending record has a result only when completed, an error only when failed and a finish time only when terminal; starting and finishing keep that shape, and finishing makes the record terminal |
| OcrEndpoint.ProcessingBounded | app/api/endpoints/ocr.py:129-132 | under the invariant the processing tasks are exactly those holding a permit, there are at most the pool's size of them, and every record has its life-cycle shape |
| OcrEndpoint.TaskRegistry.Submit | app/api/endpoints/ocr.py:55-98 | a refused upload changes nothing; an accepted one adds a pending record under the new id, last in order, and answers `pending` |
| OcrEndpoint.TaskRegistry.Insert | app/api/endpoints/ocr.py:78-82 | the new record is found by its id and listed last |
| OcrEndpoint.TaskRegistry.Begin | app/api/endpoints/ocr.py:129-132 | a task becomes processing only by taking a free permit; without one nothing changes |
| OcrEndpoint.TaskRegistry.Finish | app/api/endpoints/ocr.py:136-144 | the outcome is recorded and the permit returned |
| OcrEndpoint.TaskRegistry.ProcessTask | app/api/endpoints/ocr.py:101-144 | a task gets an outcome if and only if a permit was free; an admitted task's record alone becomes the finished record of the service's outcome; the pool is back as it was, and so are the processor's sizes |
| OcrEndpoint.InsertConsistent | app/api/endpoints/ocr.py:78-82 | inserting a fresh pending record keeps the registry invariant, record shapes included |
| OcrEndpoint.StartConsistent | app/api/endpoints/ocr.py:129-132 | taking a permit and marking the task processing keeps the invariant, so at most the pool's size of tasks are processing |
| OcrEndpoint.FinishConsistent | app/api/endpoints/ocr.py:136-144 | recording the outcome and releasing the permit keeps the invariant |
| OcrEndpoint.Listed | app/api/endpoints/ocr.py:156-158 | entry `i` of the listing is the record of the `i`-th inserted id |
| OcrEndpoint.ListedExtend | app/api/endpoints/ocr.py:156-158 | a new id adds its record at the end of the listing and leaves the rest |
| OcrEndpoint.ListingComplete | app/api/endpoints/ocr.py:156-158 | the listing holds every record, once each |

## Left out

- `draw_bounding_boxes` and `load_image`: drawing, colours, crop saving and picture decoding. The loaded picture is an `Option<Image>` parameter.
- The upload save in `upload_and_process` (ocr.py:71-75), which writes the uploaded bytes to `UPLOAD_DIR/<task_id><ext>`. That path is what `_process_task` hands to `process_ocr_task` as `image_path`; `OcrEndpoint.TaskRegistry.ProcessTask` takes it as a parameter, and the loaded picture as an `Option<Image>`.
- The file writes of `process_ocr_task` (`mkdir`, `result_ori.mmd`, `result.mmd`, `result_with_boxes.jpg`). Only the fields of the result it returns are modelled.
- The vLLM engine, `SamplingParams`, the n-gram logits processor, the request id and `tokenize_with_images` are foreign calls. They are the `Engine` and `Tokenizer` oracles. An engine exception is placed after the snapshots streamed before it.
- Logging, and every `print` except the stream echo.
- Asyncio scheduling: `BackgroundTasks`, coroutine interleaving and the waiting inside `async with task_semaphore`. The pool is a sequential counter. A task that finds no permit is reported as not admitted and left pending.
- OcrEndpoint.TaskRegistry.Submit: requires the new id to be absent, as `uuid4` is trusted to give a fresh one.
- OcrEndpoint.TaskRegistry.Begin: requires the record to be pending, as the only caller starts each task once, right after its insertion.
- The HTTP detail texts of the 400 and 404 answers. Only the status codes are modelled.
- Floating point: the corner values are integers rather than floats, and times are `real`.
- ImageUtils.Scale: pixel scaling is exact integer division. Python computes `int(c / 999 * dim)` in floating point, which can fall just short of an exact integer: for `c = 63` and `dim = 111` the exact value is 7 and Python gives 6. Once `c / 999` or `c / 999 * dim` passes the largest float, about 1.8·10^308 (a coordinate of roughly 309 digits or more, while the det parser reads up to 4300), Python raises `OverflowError`, either from the division or from `int(inf)`. `convert_matches_to_results` then drops that quad and the rest of its region. The model scales such coordinates exactly.
- RegionResultsCases: for a parsed region it promises one result per quad (`|rs| == |qs|`). Python gives fewer when a coordinate overflows the float range: the `except` at image_utils.py:190-191 drops the quad with the first overflowing coordinate and every later quad of that region, keeping the results appended before it. The model has no float range, as the `ImageUtils.Scale` line says.
- ImageUtils.ExtractCoordinatesAndLabel: `eval` is narrowed to a list of four-number lists of non-negative decimal integers, with blanks, optional trailing commas, and neither a first line nor a blank last line that is indented. A numeral of more than 4300 digits that is not all zeros is refused, as Python's default limit on integer strings makes `eval` raise. Python also accepts negative numbers, floats, underscores, tuples and other expressions, and the model refuses them. Every text the model accepts, `eval` reads as the same list. In `convert_matches_to_results`, a list whose later item is not four numbers yields in Python the results of the items before it; the model yields none for that region.
- ImageUtils.BuildBlock: a det text that `eval`s to a list of another shape keeps that list as `points_list` in Python; the model gives `[]`.
- Strings.Lower: lower-cases ASCII letters only, where Python's `str.lower` covers all of Unicode.
- Strings.ParseInt: accepts ASCII digits (at most 4300 of them, Python's default `sys.get_int_max_str_digits()`; the `PYTHONINTMAXSTRDIGITS` setting is not modelled), one sign and surrounding whitespace only. Python's `int()` also accepts single underscores between digits and non-ASCII decimal digits, so a `MAX_CONCURRENCY` or `MAX_CONCURRENT_OCR_TASKS` of `1_0` is 10 in Python and refused in the model.
- OcrService.ReconstructMarkdown: the markdown is proved free of other spans only when their labels, box texts and the plain text hold no `<` and no backslash (`OtherSpansDeleted`), and, for the span list the regex search produces, only when no span is a picture span (`MarkdownOfTaggedText`); texts with picture spans are covered by `ImagesAllReplaced` for the links alone. Outside that case a span can survive: both math rewrites run on the whole text after each deletion, so a later span whose label holds `\coloneqq` is rewritten before its turn and no longer matches (`MacroInLaterSpanSurvives`). Likewise a span whose label holds `<|ref|>` can end with another listed span; deleting that one first leaves the rest of the longer span behind.
- OcrEndpoint.Suffix: `Path` also drops `.` components and collapses repeated slashes. The model only strips trailing slashes and takes the last component.
- OcrService.Infer: image features from the tokenizer are taken to be truthy, so a prompt with `<image>` always sends a multimodal request.
- OcrService.ErrorMessage: the text of the missing-output error follows recent Python versions; the wording varies between versions.
- OcrService.ImagesAllReplaced: requires that no picture span contains `!`. Without that, a link put in can join with the text around it into a span.
- OcrService.RepeatedImageSpan: requires the same of the repeated span.
- `upload.py`, `binary_ocr_endpoint`, `lifespan.py`, `run.py`, `main.py`, `routes.py`, `health.py` and `templates.py` are framework, PDF rendering or engine lifecycle code. `OCRUploadResponse` and the PDF response shapes are not modelled.
- The directory creation at import time, and the size, path and worker settings that only configure that code.
