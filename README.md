# lolesport-overlay-extract, modelled in Dafny

The service reads the score overlay of League of Legends esports broadcasts.
It samples video frames at fixed ticks, crops five preset screen regions
(timer, blue and red kills, blue and red gold), runs OCR on each region and
assembles one `LoLGameData` snapshot per tick.

This project models the logic around the OCR engine and the image and video
libraries:

- `ocr.dfy`: the `OCRService` object, modelled as the class
  `Ocr.OcrService`. Its two fields `worker` and `isInitialized` are set by
  `Initialize`, read by `ProcessImage` and cleared by `Terminate`. Each
  method is proved against a pure transition function on the state, and the
  state-machine properties are lemmas about those functions.
- `video.dfy`: the video service.
  - `ProcessVideoFrames` defaults the request's bounds and runs
    `SampleTicks`, the tick loop, which skips a tick that fails.
  - `ExtractGameData` reads the presets in key order and maps the five
    readings to snapshot fields.
  - `ParseGold` is the gold filter with its integer and thousands branches.
- `config.dfy`: the recogniser configurations and the region preset table,
  as constants with lemmas about their shape.
- `js_text.dfy`: the ECMAScript built-ins the services depend on, modelled
  as ECMAScript defines them: `String.prototype.trim` and the global
  `parseInt` called without a radix.
- `types.dfy` holds the records of `src/types/index.ts`, and `wrappers.dfy`
  holds `Option`, `Result` and `Outcome`.

Tesseract, sharp and ffmpeg are oracles passed in as function values:
`WorkerFactory`, `ParameterSetter`, `Recognizer`, `WorkerStopper` and the
`Media` record (`extractFrame`, `resize`, `extractRoi`). Any of them may
fail. A failure stands for a rejected promise, and a rejection thrown inside
a tick is the `Failure` that the loop skips.

## Model

| member | source | states |
|---|---|---|
| Ocr.OcrService.constructor | src/services/ocrService.ts:6-7 | a new service has no worker and is not initialised |
| Ocr.OcrService.Initialize | src/services/ocrService.ts:9-16 | the new fields and the outcome are those of `Initialized` on the old fields |
| Ocr.OcrService.ProcessImage | src/services/ocrService.ts:18-39 | the result is `ProcessImageResult` of the current fields; nothing changes |
| Ocr.OcrService.Terminate | src/services/ocrService.ts:41-47 | the new fields and the outcome are those of `Terminated` on the old fields |
| Ocr.OcrService.GetStatus | src/services/ocrService.ts:49-51 | the reported `initialized` equals the `isInitialized` field |
| Ocr.ConsistencyPreserved | src/services/ocrService.ts:12-15 | "initialised implies a worker" holds for a fresh service and is kept by initialize and terminate, whichever way their oracles answer |
| Ocr.InitializeIdempotent | src/services/ocrService.ts:10 | on an initialised service, initialize creates no worker and changes nothing |
| Ocr.InitializeOutcome | src/services/ocrService.ts:12-15 | initialize succeeds exactly when worker creation and configuration both succeed; then the service is ready with the created worker; after a failure it is not initialised |
| Ocr.ProcessImageGuard | src/services/ocrService.ts:19-21 | with no worker, or when not initialised, processImage fails with "OCR worker not initialized" |
| Ocr.ProcessImageSuccess | src/services/ocrService.ts:23-38 | on a ready service the result is the recogniser's text trimmed, its confidence unchanged and the ROI echoed; the recogniser gets `{top: y, left: x, width, height}` for a given ROI and no rectangle otherwise |
| Ocr.ProcessImageTextTrimmed | src/services/ocrService.ts:35 | returned text neither starts nor ends with white space, and trimming it again changes nothing |
| Ocr.TerminateResets | src/services/ocrService.ts:41-46 | with no worker terminate is a no-op; a successful terminate returns the service to the fresh state, so a later processImage fails; a failed one keeps the state |
| Ocr.TerminateIdempotent | src/services/ocrService.ts:42 | after a successful terminate, a second one changes nothing |
| Ocr.Lifecycle | src/services/ocrService.ts:9-51 | on a fresh service processImage fails with "OCR worker not initialized"; after a successful initialize a second initialize returns success at once, processImage then gives the ready service's result, and after two terminates processImage fails with the same error |
| Config.LolRoiPresets | src/config/tesseract.ts:22-53 | five presets, each with positive width and height |
| Config.Keys | src/config/tesseract.ts:22-53 | the keys of the table, one per preset, in table order |
| Config.Lookup | src/services/videoService.ts:102-107 | a key finds a rectangle exactly when it is one of the keys, and the rectangle is that key's |
| Config.LookupFirst | src/services/videoService.ts:102-107 | indexing by a key that no earlier entry carries finds that entry's rectangle |
| Config.PresetKeysDistinct | src/config/tesseract.ts:22-53 | the five keys of the table are pairwise distinct |
| Config.PresetLookupAt | src/services/videoService.ts:99-107 | the k-th key of the table looks up the k-th entry's rectangle, the one each region reading uses |
| Config.PresetKeyOrder | src/config/tesseract.ts:23-52 | the key order is timer, blueKills, redKills, blueGold, redGold |
| Config.PresetLookup | src/config/tesseract.ts:23-52 | each key finds its literal rectangle; any other key finds none |
| Config.PairedPresets | src/config/tesseract.ts:29-52 | both kills regions are 50x32 and both gold regions are 75x30, all at y = 17 |
| Config.WhitelistsNested | src/config/tesseract.ts:6-16 | the timer whitelist is contained in the general one; neither admits k or K; only the general one admits '.' |
| JsText.TrimStartShape | src/services/ocrService.ts:35 | dropping leading white space keeps a suffix that does not start with white space, and everything dropped is white space |
| JsText.TrimEndShape | src/services/ocrService.ts:35 | dropping trailing white space keeps a prefix that does not end with white space, and everything dropped is white space |
| JsText.TrimSlice | src/services/ocrService.ts:35 | trim keeps one contiguous slice that neither starts nor ends with white space, and every dropped character is white space |
| JsText.TrimFixed | src/services/ocrService.ts:35 | a text without white space at either end is left unchanged by trim |
| JsText.TrimIdempotent | src/services/ocrService.ts:35 | trimming twice is trimming once |
| JsText.LeadingDigits | src/services/videoService.ts:114-115 | the longest prefix made of digits of the radix: a prefix, all digits, followed by a non-digit or the end |
| JsText.ParseIntDecimal | src/services/videoService.ts:114-115 | a text that starts with a decimal digit (and not with "0x") gives the value of its leading digit run |
| JsText.ParseIntNonNumeric | src/services/videoService.ts:114-115 | a text that starts with no white space, sign or digit gives NaN, so the kill count is 0 |
| JsText.DecimalString | src/services/videoService.ts:114-115 | the decimal rendering is non-empty, all digits, one digit long exactly for values below 10 |
| JsText.DigitsValueOfDecimal | src/services/videoService.ts:114-115 | the rendered digits denote the number rendered |
| JsText.LeadingDigitsOfRun | src/services/videoService.ts:114-115 | the leading digit run of a digit string followed by a non-digit is that digit string |
| JsText.ParseIntOfDecimal | src/services/videoService.ts:114-115 | parseInt reads back any rendered number followed by a non-digit text (except "0" followed by x or X) |
| JsText.ParseIntSigned | src/services/videoService.ts:114-115 | one leading "-" negates the number that follows, and "+" leaves it unchanged |
| JsText.ParseIntExamples | src/services/videoService.ts:114-115 | kill readings "" -> 0, "7" -> 7, "12:3" -> 12, "x7" -> 0 |
| JsText.ParseIntSkipsSpace | src/services/videoService.ts:114-115 | leading white space is skipped: " 42" -> 42 |
| JsText.ParseIntNegative | src/services/videoService.ts:114-115 | "-3" -> -3 |
| JsText.ParseIntHexPrefix | src/services/videoService.ts:114-115 | with no radix, "0x1A" is read as hexadecimal: 26 |
| JsText.HexRunValue | src/services/videoService.ts:114-115 | the hexadecimal digit run "1A" is worth 26 |
| Video.Ticks | src/services/videoService.ts:62 | every tick lies in [start, end) |
| Video.TicksEnumerate | src/services/videoService.ts:62 | the k-th tick is start + k * interval, and one more step would reach end |
| Video.TicksIncreasing | src/services/videoService.ts:62 | ticks strictly increase |
| Video.UnitTicks | src/services/videoService.ts:62 | from 0 with interval 1 the loop visits exactly 0, 1, ..., end - 1 |
| Video.DefaultTicks | src/services/videoService.ts:54-59 | with no parameters the loop ends and visits 0, 1, ..., 59 |
| Video.TicksExample | src/services/videoService.ts:62 | start 0, end 5, interval 2 visits 0, 2 and 4 |
| Video.TicksEmpty | src/services/videoService.ts:62 | a range whose start is at or past its end visits nothing, whatever the interval |
| Video.All | src/services/videoService.ts:98 | a combined success holds as many values as there are results |
| Video.AllSucceeds | src/services/videoService.ts:98 | Promise.all succeeds exactly when every result does, and then lists their values in order |
| Video.AllFirstFailure | src/services/videoService.ts:98 | Promise.all fails with the first failure in key order |
| Video.RegionReading | src/services/videoService.ts:99-108 | the k-th region's reading fails with the crop's error if the crop fails; otherwise, on a ready service, it is the recogniser's answer for the crop with the rectangle {top: y, left: x, width, height} of the k-th preset, its text trimmed, and the preset's rectangle echoed, untyped, as the ROI |
| Video.GameDataFields | src/services/videoService.ts:98-119 | a snapshot exists exactly when all five regions read; the k-th key feeds the k-th slot: timer text unchanged, kills parseInt of the text (0 for NaN), gold the text or "0" when it is empty, timestamp the tick |
| Video.GameDataNeedsReady | src/services/videoService.ts:105-108 | with an OCR service that is not ready, no snapshot is assembled |
| Video.GameDataFailsAt | src/services/videoService.ts:98-110 | if the first k regions read and the k-th fails, the snapshot fails with the k-th region's error |
| Video.GameDataFromReadings | src/services/videoService.ts:98-119 | if all five regions read, the snapshot is assembled from those readings |
| Video.ExtractGameData | src/services/videoService.ts:94-120 | the loop over the presets returns `GameData` of the service state: the assembled snapshot, or the first failure |
| Video.TickStamped | src/services/videoService.ts:84-118 | a snapshot produced at a tick carries that tick as timestamp; with an OCR service that is not ready every tick fails |
| Video.Collected | src/services/videoService.ts:60-91 | there are never more snapshots kept than tick results |
| Video.CollectedExactly | src/services/videoService.ts:63-88 | a snapshot is kept exactly when some tick's result is that snapshot |
| Video.CollectedSnoc | src/services/videoService.ts:84-88 | one more tick result adds its snapshot at the end if it succeeded and nothing if it failed |
| Video.CollectedStampsAreTicks | src/services/videoService.ts:84-85 | when snapshots carry their tick, every result's timestamp is one of the ticks |
| Video.CollectedInTickOrder | src/services/videoService.ts:84-85 | when snapshots carry their tick and ticks increase, the results' timestamps strictly increase |
| Video.CollectedAllFailed | src/services/videoService.ts:86-88 | if every tick fails the result is empty |
| Video.SkippedTick | src/services/videoService.ts:86-88 | a failed result between two successes is dropped and the later success is kept, in order |
| Video.TickResults | src/services/videoService.ts:62-85 | one result per tick, in tick order |
| Video.TickResultsAt | src/services/videoService.ts:62-85 | the k-th result is the result of reading the frame at the k-th tick |
| Video.TicksStep | src/services/videoService.ts:62 | while time is below the end, it is the next tick of the run, and the ticks after it are those from time + interval |
| Video.TicksDone | src/services/videoService.ts:62 | once time reaches the end, every tick of the run has been visited |
| Video.ReadTick | src/services/videoService.ts:64-84 | one loop turn's reading: the frame extraction's or the resize's error, or else extractGameData of the resized 1920x1080 frame at that time |
| Video.SampleTick | src/services/videoService.ts:63-88 | one loop turn at the k-th tick appends that tick's snapshot when the frame reads and leaves the results unchanged when it fails |
| Video.SampleTurn | src/services/videoService.ts:62-88 | while time is below the end, time is the k-th tick, the ticks after it start at time + interval, and the results gathered so far plus this tick's snapshot (if any) are those of the first k + 1 ticks |
| Video.SampleTicks | src/services/videoService.ts:62-89 | given the per-tick results of the run, the loop returns, in tick order, the snapshot of each tick that succeeds and nothing for a tick that fails |
| Video.ProcessVideoFrames | src/services/videoService.ts:51-92 | with the missing bounds defaulted to 0, 60 and 1, the result is that of the loop over the request's ticks |
| Video.SamplerStamped | src/services/videoService.ts:84-118 | every returned snapshot is stamped with a tick, and reading the frame at that tick produced exactly that snapshot |
| Video.SamplerOrdered | src/services/videoService.ts:62-85 | returned snapshots are in strictly increasing timestamp order |
| Video.SamplerNeedsReady | src/services/videoService.ts:86-88 | with an OCR service that is not ready the sampler returns no snapshot |
| Video.GoldFilter | src/services/videoService.ts:153 | the filtered text is no longer than the input and consists of gold characters only |
| Video.GoldFilterAppend | src/services/videoService.ts:153 | the filter works character by character, so kept characters stay in their original order |
| Video.GoldFilterCounts | src/services/videoService.ts:153 | every digit, '.', 'k' and 'K' is kept as often as it occurs, and every other character is dropped |
| Video.GoldFilterFixed | src/services/videoService.ts:153 | the filter leaves a text unchanged exactly when it has only gold characters |
| Video.GoldFilterIdempotent | src/services/videoService.ts:153 | filtering twice is filtering once |
| Video.GoldFilterDropsAll | src/services/videoService.ts:153 | "abc" filters to "" |
| Video.GoldFilterKeepsUpperK | src/services/videoService.ts:153 | "15.1K" is left unchanged |
| Video.GoldFilterDropsNoise | src/services/videoService.ts:153 | " 12,3k$" filters to "123k" |
| Video.RemoveFirstKRemovesOne | src/services/videoService.ts:155 | replacing "k" removes exactly one 'k' when there is one and changes nothing otherwise |
| Video.RemoveFirstKAt | src/services/videoService.ts:155 | when the first 'k' sits at index i, replacing "k" gives the text with exactly that character cut out |
| Video.ParseGoldWhole | src/services/videoService.ts:154-157 | without a lowercase k, the value is the leading decimal digit run of the filtered text, or 0 |
| Video.ParseIntOfGoldText | src/services/videoService.ts:157 | on filtered text, parseInt (0 for NaN) is the value of the leading decimal digit run |
| Video.ParseGoldUpperK | src/services/videoService.ts:153-157 | an uppercase K survives the filter but takes the integer branch: "12K" -> 12 |
| Video.ParseGoldFraction | src/services/videoService.ts:157 | the integer branch stops at the decimal point: "15.1" -> 15 |
| Video.LeadingRunOfFraction | src/services/videoService.ts:157 | the leading decimal run of "15.1" is worth 15 |
| Video.ParseGoldNoDigits | src/services/videoService.ts:152-157 | every reading with no gold character is worth 0 |
| Video.ParseGoldThousandsExample | src/services/videoService.ts:154-155 | "1.5k" takes the thousands branch with "1.5" handed to parseFloat |
| Video.PresetsInsideFrame | src/services/videoService.ts:66 | every preset lies inside the 1920x1080 frame that crops are taken from |

## Left out

- The debug branch of `processVideoFrames` (src/services/videoService.ts:70-82), `saveDebugFrame`, console logging and the file writes. The service is modelled with debug mode off, which is its default.
- `extractFrame` (ffmpeg), the `sharp` resize and `extractROI`. These are the `Media` oracles. Tesseract's recognition and parameter handling are oracles too.
- The `Promise.all` concurrency in `extractGameData`. The five readings are made one after another in key order, and the first failure in that order is the one reported. Concurrently, the first rejection to settle wins.
- Video.ProcessVideoFrames: the OCR service state is taken as fixed for the whole run. A concurrent terminate() (the SIGTERM handler in src/index.ts:43-46) at an await would make later ticks fail and return partial results; the model does not capture that.
- Video.ProcessVideoFrames: tick times are whole numbers, not floating point. The method requires the interval to be positive whenever `startTime < endTime`. Otherwise the source loops forever.
- The float branch of `parseGold`. The model returns the text handed to `parseFloat` (`Thousands`) instead of the scaled float. `parseGold` is never called in the source, and the model keeps it as a stand-alone function.
- `JsText.ParseInt` ignores the rounding of numbers beyond 2^53. It treats a string as a sequence of Unicode scalar values, not UTF-16 code units.
- The `ROI.type` field is optional in the model, because the presets passed where an `ROI` is expected carry no type.
- `TESSERACT_CONFIG_TIMER` is modelled as a constant only; no code path uses it.
- The HTTP routes, the server wiring and the preprocessing chain are not part of this model: src/routes/ocrRoutes.ts, src/index.ts and src/utils/process.ts.
- There is no per-kind recogniser pool and no repair of gold shapes such as "151K" to "15.1K". The code has neither; one worker with one configuration serves every region.
- Ocr.OcrService.Initialize follows the code order. If `setParameters` rejects, the created worker stays stored while `isInitialized` stays false. A later `initialize` then creates a new worker, and the old one is not terminated.
