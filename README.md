# Document scanning and invoice assembly: a Dafny model

The application lets a user photograph or upload receipt pages. It straightens each page,
collects the pages, uploads them, runs OCR on them, lets the user review the texts, and
finally has an invoice PDF generated under a per-budget, per-year invoice number.

This project models the decision logic and the state machines of that pipeline, and proves
what they promise. There is one Dafny module per source file:

- `ScanProcessor` is the correction worker. It covers the fail-fast quality gate, the
  choice of the document contour, the labelling of its four corners, the size of the
  rectified image, the start-up queue and the dispatch of the worker's replies on the
  main thread.
- `DocumentEditor` is the manual corrector. It covers dragging one corner and the
  bounding-box crop made on confirm.
- `CameraCapture` and `FileUploader` are the two capture sessions. Each is a class whose
  fields are the component's state. Their methods are the handlers: capture/choose,
  automatic or manual correction, adding and removing pages, and the finalize loop that
  uploads every page in order.
- `CompressImage` is the JPEG quality-reduction loop. Qualities are counted in tenths.
- `RequestWithRetry` is the fetch wrapper. It covers the bearer header and the retry
  loop with exponential backoff.
- `Review` is the review page. It covers the OCR load loop and the per-page handlers:
  edit, undo, rotate, reload, aspect.
- `Send` is the invoice route. It covers validation, the invoice counter and the
  invoice-number format.
- `Process` is the OCR route. It covers the constant-delay `retry` and the shaping of
  the reply.
- `AuthService` covers the JWT route guard, registration and login.

There are also three support modules:

- `Base` holds `Option` and `Result`.
- `Js` holds the bits of JavaScript value semantics the code relies on: truthiness,
  ASCII `toLowerCase`, `endsWith`, `String(n)`, `padStart`, `Number` on digit strings and
  `split(' ')`.
- `Media` holds blobs, corner handles, and the "first failure wins" collection that both
  finalize loops and the review load share.

Foreign services are parameters of the model, never calls:

- OpenCV, which is reduced to the measurements it would return;
- the canvas encoder;
- `fetch`;
- Tesseract;
- bcrypt and jwt;
- the clock;
- object URLs.

Loops of the source are `while` loops proved against recursive specification functions.
State that handlers update is held in class fields.

## Model

| member | source | states |
|---|---|---|
| ScanProcessor.ComponentRequest | frontend/src/components/ScanProcessor.jsx:9-13 | every request carries the fixed thresholds 600×800, blur 100 and brightness 40..215 |
| ScanProcessor.QualityGate | frontend/src/components/ScanProcessor.jsx:177-218 | the checks run in order resolution, too dark, too bright, blurry; each failure is reported exactly when its check is the first one violated; both brightness bounds pass inclusively; the variance is the square of the Laplacian's standard deviation |
| ScanProcessor.MessagesDistinct | frontend/src/components/ScanProcessor.jsx:177-258 | the five rejection messages are pairwise distinguishable |
| ScanProcessor.SelectDocument | frontend/src/components/ScanProcessor.jsx:234-249 | the chosen contour, if any, is one whose approximation has four vertices |
| ScanProcessor.SelectContour | frontend/src/components/ScanProcessor.jsx:234-249 | the `for` loop that reassigns `docCnt` ends with the choice `SelectDocument` specifies |
| ScanProcessor.SelectDocumentSpec | frontend/src/components/ScanProcessor.jsx:234-258 | there is no choice iff no contour is a candidate; no later candidate has a raw area above the chosen approximation's; when approximations are exact, the choice is the earliest candidate of largest area, because replacement needs a strictly larger area |
| ScanProcessor.SelectFromFirstLargest | frontend/src/components/ScanProcessor.jsx:240-247 | loop invariant: the current choice is the first candidate of the largest area seen so far |
| ScanProcessor.ArgMin | frontend/src/components/ScanProcessor.jsx:264-269 | `indexOf(Math.min(...))` is a position of the least value, and no earlier position holds it |
| ScanProcessor.ArgMax | frontend/src/components/ScanProcessor.jsx:264-269 | `indexOf(Math.max(...))` is a position of the greatest value, and no earlier position holds it |
| ScanProcessor.OrderCorners | frontend/src/components/ScanProcessor.jsx:260-269 | each labelled corner is one of the four points; tl has the least x+y and br the greatest; tr has the least y−x and bl the greatest |
| ScanProcessor.OrderCornersEarliest | frontend/src/components/ScanProcessor.jsx:264-269 | on a tie, each label goes to the first point with the extreme key |
| ScanProcessor.OrderCornersPermutationInvariant | frontend/src/components/ScanProcessor.jsx:260-269 | when the keys are distinct, the labelling does not depend on the order in which the points are listed |
| ScanProcessor.OutputSize | frontend/src/components/ScanProcessor.jsx:271-276 | the squared output width is the larger of the squared bottom and top edges; the squared height is the larger of the squared right and left edges |
| ScanProcessor.Destination | frontend/src/components/ScanProcessor.jsx:284-289 | the warp's target is an axis-aligned rectangle at the origin whose sides span maxW−1 and maxH−1 pixels, listed in the order tl, tr, br, bl |
| ScanProcessor.RectangleDestination | frontend/src/components/ScanProcessor.jsx:260-293 | for an axis-aligned rectangle in any order, maxW and maxH are its sides, and each labelled corner is sent to the destination corner of the same label: the rectangle moved to the origin, its right and bottom corners on the output's last column and row |
| ScanProcessor.RectangleRectifiesToItsSides | frontend/src/components/ScanProcessor.jsx:260-276 | the four corners of an axis-aligned rectangle, listed in any order, are labelled as that rectangle's corners, and the output size is its sides |
| ScanProcessor.Analyse | frontend/src/components/ScanProcessor.jsx:174-308 | `processMessage` as a function of the request; stated by `ScanProcessor.AnalyseSpec` and `ScanProcessor.ProcessMessage` |
| ScanProcessor.AnalyseSpec | frontend/src/components/ScanProcessor.jsx:174-308 | the reply to a request: each quality rejection exactly when the gate reports it; "Dokumentenkanten nicht gefunden" exactly when no contour is a candidate; otherwise the rectification of a candidate's approximation, or nothing when encoding fails |
| ScanProcessor.AnalyseErrorsNonEmpty | frontend/src/components/ScanProcessor.jsx:177-258 | every error the worker posts has a non-empty message, so the main thread sees it as an error |
| ScanProcessor.ResolutionIgnoresMeasurements | frontend/src/components/ScanProcessor.jsx:177-179 | a frame below the resolution is rejected whatever its brightness, sharpness, contours or encoding |
| ScanProcessor.ProcessMessage | frontend/src/components/ScanProcessor.jsx:174-308 | `processMessage`, with the selection as a loop, replies as `Analyse` says |
| ScanProcessor.Drain | frontend/src/components/ScanProcessor.jsx:159-164 | draining the queue processes every pending request in order, and the replies are those of the requests in processing order |
| ScanProcessor.RepliesInOrder | frontend/src/components/ScanProcessor.jsx:159-172 | when every request gets a reply, reply i, in processing order, answers request i |
| ScanProcessor.Worker.constructor | frontend/src/components/ScanProcessor.jsx:157 | the worker starts not ready, with an empty queue and nothing posted |
| ScanProcessor.Worker.OnMessage | frontend/src/components/ScanProcessor.jsx:166-172 | before the runtime is ready, a message is queued last and nothing is posted; afterwards it is answered at once |
| ScanProcessor.Worker.OnRuntimeReady | frontend/src/components/ScanProcessor.jsx:159-164 | when `cvReady` resolves with the runtime usable, the queued messages are processed in arrival order and the queue is emptied |
| ScanProcessor.OnWorkerMessage | frontend/src/components/ScanProcessor.jsx:16-46 | a truthy error takes precedence over a blob; a blob reaches `onProcessed` only with a canvas and a successful draw; at most one callback is invoked; busy ends false whenever one is |
| ScanProcessor.OnWorkerError | frontend/src/components/ScanProcessor.jsx:49-55 | a worker error calls `onError` and ends busy |
| ScanProcessor.DispatchOfReply | frontend/src/components/ScanProcessor.jsx:16-46 | every reply the worker posts reaches the matching callback: its error goes to `onError`, its drawable image to `onProcessed` |
| DocumentEditor.ViewOf | frontend/src/components/DocumentEditor.jsx:30-74 | the waiting message iff `initialCorners` is not exactly four corners; otherwise the loading message iff the image has not loaded; the handles only with four corners and a loaded image |
| DocumentEditor.MoveCorner | frontend/src/components/DocumentEditor.jsx:35-38 | a drag moves the corner at idx and leaves every other corner unchanged |
| DocumentEditor.MoveCornerTwice | frontend/src/components/DocumentEditor.jsx:35-38 | two drags of the same handle leave it where the second one put it |
| DocumentEditor.MoveCornersCommute | frontend/src/components/DocumentEditor.jsx:35-38 | drags of different handles commute |
| DocumentEditor.MoveCornerInPlace | frontend/src/components/DocumentEditor.jsx:35-38 | dragging a handle onto its own position changes nothing |
| DocumentEditor.BoundingBox | frontend/src/components/DocumentEditor.jsx:42-49 | w = maxX − minX ≥ 0 and h = maxY − minY ≥ 0; the box contains every corner and each of its sides touches one |
| DocumentEditor.BoundingBoxSmallest | frontend/src/components/DocumentEditor.jsx:42-49 | every box that contains all corners contains the bounding box |
| DocumentEditor.InsetCrop | frontend/src/components/DocumentEditor.jsx:42-61 | confirming the untouched start corners crops the central 80% of the image |
| DocumentEditor.Confirmed | frontend/src/components/DocumentEditor.jsx:62-65 | `onConfirm` receives the blob only when there is one and `onConfirm` is a function |
| DocumentEditor.ScaleFactor | frontend/src/components/DocumentEditor.jsx:77-79 | the scale is at most 1, at most what fits 700 px, and at most what fits the viewport less 200 px; it is one of those three |
| DocumentEditor.DisplayedWidthBounded | frontend/src/components/DocumentEditor.jsx:77-79 | the image is never shown enlarged, nor wider than 700 px or the viewport less 200 px |
| DocumentEditor.Editor.constructor | frontend/src/components/DocumentEditor.jsx:9 | the corner state starts as the given corners, or empty; an editor given four corners starts with four |
| DocumentEditor.Editor.SyncInitialCorners | frontend/src/components/DocumentEditor.jsx:24-28 | a new `initialCorners` replaces the corner state wholesale |
| DocumentEditor.Editor.HandleDrag | frontend/src/components/DocumentEditor.jsx:35-38 | the new corner state is `MoveCorner` of the old one |
| DocumentEditor.CanvasDimension | frontend/src/components/DocumentEditor.jsx:52-54 | a canvas dimension set from a number below 2^31 pixels is its whole part; one in [2^31, 2^32) falls back to the default (300 for the width, 150 for the height) |
| DocumentEditor.Editor.HandleOK | frontend/src/components/DocumentEditor.jsx:40-61 | the bounding box is copied unscaled to (0, 0, w, h) of a canvas of ⌊w⌋ × ⌊h⌋ pixels for sides below 2^31, so a fractional edge falls off the canvas; there is no perspective warp |
| CameraCapture.UploadPageSpec | frontend/src/components/CameraCapture.jsx:167-188 | a page succeeds exactly when it compresses, its post is answered, and the answer is ok with a path; it then yields that path; a failed compression yields its message |
| CameraCapture.UploadedFile | frontend/src/components/CameraCapture.jsx:171-175 | the uploaded file keeps the compressed bytes and type and is named `scan-<now>-<i>.jpg` |
| CameraCapture.UploadedPathsInOrder | frontend/src/components/CameraCapture.jsx:166-193 | after a successful finalize, path i is the reply to page i's upload |
| CameraCapture.CameraSession.constructor | frontend/src/components/CameraCapture.jsx:14-40 | the session starts in preview with no page, no error and the guard unset |
| CameraCapture.CameraSession.Capture | frontend/src/components/CameraCapture.jsx:70-89 | without a frame only the error is set; otherwise the frame becomes the source, the mode is auto, the guard is reset and the error cleared |
| CameraCapture.CameraSession.HandleAutoSuccess | frontend/src/components/CameraCapture.jsx:94-103 | consumed at most once per guard reset: with the guard set nothing changes; otherwise the cropped page is kept and shown |
| CameraCapture.CameraSession.StartManualAfterAuto | frontend/src/components/CameraCapture.jsx:108-124 | the error is cleared; once the image has loaded, the corners are set 10% in, the guard is reset and the mode is manual |
| CameraCapture.CameraSession.OnAutoError | frontend/src/components/CameraCapture.jsx:291-295 | ignored once the guard is set; otherwise the manual corrector starts with inset corners and the worker's message is shown |
| CameraCapture.CameraSession.ManualConfirm | frontend/src/components/CameraCapture.jsx:349-356 | guarded like the automatic success; leads to previewProcessed with the confirmed page |
| CameraCapture.CameraSession.HandleAddToPhotos | frontend/src/components/CameraCapture.jsx:129-141 | without a cropped page nothing changes; otherwise the page is appended last and the transient state and mode are reset to preview |
| CameraCapture.CameraSession.RemovePhotoAt | frontend/src/components/CameraCapture.jsx:146-151 | exactly page idx is removed, the others keep their order, and its URL is revoked |
| CameraCapture.CameraSession.HandleRetakeOrManual | frontend/src/components/CameraCapture.jsx:203-213 | both object URLs are revoked and the session returns to the camera with the transient state cleared |
| CameraCapture.CameraSession.HandleUploadAllAndProceed | frontend/src/components/CameraCapture.jsx:156-198 | with no page only the error is set; otherwise the pages are uploaded in order up to the first failure; on success `onSuccess` gets the paths in collection order; on failure the mode returns to preview with the failure's message; the collection is kept either way |
| Media.InsetCorners | frontend/src/components/CameraCapture.jsx:112-119 | the start corners are 10% in from every edge, clockwise from top left, and lie inside the image |
| Media.Collect | frontend/src/components/CameraCapture.jsx:164-197 | results collect to all values in order iff every one succeeds, and otherwise to the first failure with its index |
| Media.CollectAllOk | frontend/src/components/CameraCapture.jsx:166-190 | results that all succeed collect to their values in order |
| Media.CollectFirstErr | frontend/src/components/CameraCapture.jsx:185-187 | results whose first failure is at k collect to that failure |
| Media.UploadInOrder | frontend/src/components/FileUploader.jsx:170-204 | the finalize loop stops at the first failure, yields what `Collect` makes of the pages' outcomes, and revokes the URL of exactly the pages uploaded |
| FileUploader.PdfHeaderOk | frontend/src/components/FileUploader.jsx:122-128 | `checkPdfHeader`: the first five bytes are `%PDF-`; stated by `FileUploader.PdfHeaderOnlyPrefix` and `FileUploader.FileSession.HandleChange` |
| FileUploader.PdfHeaderOnlyPrefix | frontend/src/components/FileUploader.jsx:122-128 | the header check looks only at the first five bytes |
| FileUploader.ReplaceHeicSuffix | frontend/src/components/FileUploader.jsx:77-84 | a name ending in `.heic` (in any case) gets `.jpg` in its place; any other name is kept |
| FileUploader.ReplaceHeicSuffixJpg | frontend/src/components/FileUploader.jsx:77-84 | the renamed file ends in `.jpg` and keeps everything before the suffix |
| FileUploader.AsFile | frontend/src/components/FileUploader.jsx:76-87 | a converted image without a name becomes a JPEG file named after the chosen file with `.heic` replaced; a named file is kept |
| FileUploader.UploadForm | frontend/src/components/FileUploader.jsx:176-189 | what is sent for one page and under which name; stated by `FileUploader.UploadFormSpec` and `FileUploader.NameOnlyPdfIsCompressed` |
| FileUploader.UploadFormSpec | frontend/src/components/FileUploader.jsx:176-189 | a page of type PDF is sent uncompressed under its own name; every other page is compressed and named `upload-<now>-<i>.jpg`, or fails with the compressor's message |
| FileUploader.NameOnlyPdfIsCompressed | frontend/src/components/FileUploader.jsx:176-189 | a file accepted as a PDF by its name alone goes to the image compressor at upload time: it fails with the compressor's message, or is sent as the compressed image named `upload-<now>-<i>.jpg` |
| FileUploader.FailureMessageLost | frontend/src/components/FileUploader.jsx:206-212 | as written, a failed finalize leaves the empty message, not the failure's |
| FileUploader.ErrorAfterFinalizeIntended | frontend/src/components/FileUploader.jsx:206-208 | intended: a failure leaves its prefixed message, and a success leaves none |
| FileUploader.IntendedMessageTellsFailure | frontend/src/components/FileUploader.jsx:206-208 | with the intended message, a failed finalize can be told from a successful one |
| FileUploader.FileSession.constructor | frontend/src/components/FileUploader.jsx:12-24 | the session starts in select with no file, no page, no error and the guard unset |
| FileUploader.FileSession.CleanupCurrent | frontend/src/components/FileUploader.jsx:139-148 | the set URLs are revoked; the file, URLs, cropped page, corners and error are cleared; nothing else changes |
| FileUploader.FileSession.HandleChange | frontend/src/components/FileUploader.jsx:27-91 | only files[0] is handled; no file, over 10 MiB, a bad PDF header or a failed HEIC conversion sets only the error and leaves every other field as it was; a valid PDF is appended last, the current page is cleaned up and the mode is select; any other image goes to auto as a file with its URL and the guard reset, keeping the collection and the cropped page; `uploading` never changes |
| FileUploader.FileSession.HandleAutoSuccess | frontend/src/components/FileUploader.jsx:95-102 | takes effect at most once per guard reset and shows the cropped page |
| FileUploader.FileSession.HandleAutoError | frontend/src/components/FileUploader.jsx:105-121 | ignored once the guard is set; otherwise the prefixed message is shown and, once loaded, the manual corrector starts with inset corners |
| FileUploader.FileSession.HandleAddToPhotos | frontend/src/components/FileUploader.jsx:130-136 | without a cropped page no field changes; otherwise it is appended last, the current page is cleaned up and the mode is select |
| FileUploader.FileSession.RemovePhotoAt | frontend/src/components/FileUploader.jsx:151-156 | exactly page idx is removed with its URL revoked; an index outside the collection changes nothing |
| FileUploader.FileSession.HandleUploadAllAndProceed | frontend/src/components/FileUploader.jsx:159-213 | with no page only the error is set; otherwise the pages are uploaded in order up to the first failure, and success hands on the paths in order; then, either way, the collection and the current page are cleared, the error included |
| FileUploader.FileSession.HandleRetake | frontend/src/components/FileUploader.jsx:216-219 | the current page is cleaned up and the mode is select |
| FileUploader.FileSession.HandleSwitchToManual | frontend/src/components/FileUploader.jsx:221-238 | without an image URL nothing changes; otherwise, once loaded, the corners are set 10% in, the guard is reset and the mode is manual |
| FileUploader.FileSession.HandleManualConfirm | frontend/src/components/FileUploader.jsx:243-250 | takes effect at most once per guard reset and shows the confirmed page |
| CompressImage.AcceptOnlyAtFloor | frontend/src/utils/compressImage.js:24 | "quality < 0.1" holds exactly at the last tenth, so a blob is accepted iff it fits or was made at the floor |
| CompressImage.Attempts | frontend/src/utils/compressImage.js:17-34 | the qualities tried start at the given one and go down one tenth at a time |
| CompressImage.AttemptsDecide | frontend/src/utils/compressImage.js:18-29 | every quality tried but the last gave a blob that was too large; the last one rejects when it gives no blob, and otherwise is accepted and resolved |
| CompressImage.TryQuality | frontend/src/utils/compressImage.js:17-34 | the countdown of qualities as a function; stated by `CompressImage.TryQualityResolved`, `CompressImage.TryQualityRejected` and `CompressImage.EncodeLoop` |
| CompressImage.TryQualityResolved | frontend/src/utils/compressImage.js:24-28 | a resolved blob was encoded at a quality tried, fits unless it was made at the floor, and every higher quality gave one too large: it is the best quality that fits |
| CompressImage.TryQualityRejected | frontend/src/utils/compressImage.js:20-22 | a rejection is "Kompression fehlgeschlagen" and follows a missing blob at some quality |
| CompressImage.EncodeLoop | frontend/src/utils/compressImage.js:17-34 | the countdown loop settles as `TryQuality` says and encodes at the qualities `Attempts` lists |
| CompressImage.Compress | frontend/src/utils/compressImage.js:2-40 | an image that does not load rejects; otherwise the first encode is at 0.9, each later one is a tenth lower, there are at most ten, and the result is a JPEG of the image's own size |
| RequestWithRetry.AugmentHeaders | frontend/src/utils/requestWithRetry.js:19-33 | the sent headers are a copy of the caller's, with `Authorization: Bearer <token>` iff a token is stored; every other header is kept |
| RequestWithRetry.SentOptions | frontend/src/utils/requestWithRetry.js:19-24 | everything of the caller's options is kept except the headers, which are augmented |
| RequestWithRetry.Failure | frontend/src/utils/requestWithRetry.js:40-42 | an attempt fails iff it throws or its status is in 500..599, with "Server-Error <status>" |
| RequestWithRetry.RetryFromSpec | frontend/src/utils/requestWithRetry.js:35-50 | no more calls than attempts remain; every call but the last failed; a resolution is the last call's response; a rejection is the final attempt's error |
| RequestWithRetry.NonServerErrorReturnedAtOnce | frontend/src/utils/requestWithRetry.js:40-45 | any status outside 500..599, a 4xx included, is returned after one call |
| RequestWithRetry.Request | frontend/src/utils/requestWithRetry.js:17-55 | the promise settles as `RetryFrom` says, after at most `retries` calls; the wait before attempt k+1 is backoff·2^(k−1) |
| RequestWithRetry.DefaultSchedule | frontend/src/utils/requestWithRetry.js:17-52 | with the defaults there are at most three calls, with waits of 500 ms and 1000 ms |
| Review.TextOf | frontend/src/pages/Review.jsx:50-51 | a reply's text when it is a string, and otherwise the empty text |
| Review.IsPdf | frontend/src/pages/Review.jsx:23 | `isPdf`: the path ends in `.pdf` in any case; stated by `Review.OcrRequestsNonPdf` and `Review.PdfPagesSkipOcr` |
| Review.OcrRequestsNonPdf | frontend/src/pages/Review.jsx:36-52 | exactly the paths that are not PDFs are sent for OCR |
| Review.PdfPagesSkipOcr | frontend/src/pages/Review.jsx:39-41 | a PDF page gets "(PDF - kein OCR)" and no request |
| Review.Loaded | frontend/src/pages/Review.jsx:53-72 | after a load there is one text, one empty history, one rotation of 0, no loading flag and no error per page; PDFs get the ratio 0.707 |
| Review.LoadTexts | frontend/src/pages/Review.jsx:36-52 | the loop reads the pages in order up to the first failure; offline aborts; it returns what `Collect` makes of the pages' outcomes and the OCR requests made |
| Review.Load | frontend/src/pages/Review.jsx:26-79 | with no pages only the error is set; the first failure becomes the page error and nothing else is set; otherwise the arrays are filled |
| Review.ReplaceAt | frontend/src/pages/Review.jsx:122-144 | a `map`-at-index copy changes only entry idx |
| Review.TextChange | frontend/src/pages/Review.jsx:122-127 | the old text of idx is pushed onto its history and replaced; other pages and arrays are unchanged |
| Review.Undo | frontend/src/pages/Review.jsx:129-138 | with no history nothing changes; otherwise the last entry is restored and popped; other pages are unchanged |
| Review.ChangeThenUndo | frontend/src/pages/Review.jsx:122-138 | a change followed by an undo restores both the text and the history |
| Review.RotateLeft | frontend/src/pages/Review.jsx:140-141 | only the rotation at idx changes, by −90 modulo 360, and it stays a right angle |
| Review.RotateRight | frontend/src/pages/Review.jsx:143-144 | only the rotation at idx changes, by +90 modulo 360, and it stays a right angle |
| Review.RotationsCancel | frontend/src/pages/Review.jsx:140-144 | left then right, and right then left, leave the page state as it was |
| Review.FourTurnsIdentity | frontend/src/pages/Review.jsx:143-144 | four right turns are the identity |
| Review.Aspect | frontend/src/pages/Review.jsx:165-166 | the ratio is inverted iff rotation % 180 ≠ 0; an unset ratio counts as 1 |
| Review.QuarterTurnInvertsAspect | frontend/src/pages/Review.jsx:165-166 | a quarter turn swaps the aspect with its inverse |
| Review.ReloadOutcomeIntended | frontend/src/pages/Review.jsx:104-108 | intended: a reply's text is used and a warning is only logged |
| Review.ReloadOutcome | frontend/src/pages/Review.jsx:104-108 | as written, a reply with a warning ends in the `ReferenceError`; stated by `Review.ReloadWarningKeepsOldText` |
| Review.ReloadPage | frontend/src/pages/Review.jsx:81-120 | `handleReloadPage` as written; stated by `Review.ReloadPageWith` and `Review.ReloadWarningKeepsOldText` |
| Review.ReloadPageWith | frontend/src/pages/Review.jsx:81-120 | offline only the page error is set; otherwise a failure sets the page error, and a text resets that page's text, history, rotation and error; other pages are unchanged |
| Review.ReloadWarningKeepsOldText | frontend/src/pages/Review.jsx:105-107 | as written, a reply with a warning keeps the old text, history and rotation and sets the page's error to "i is not defined" |
| Review.ReloadIntendedResetsPage | frontend/src/pages/Review.jsx:110-112 | intended: every reply resets the page at idx only |
| Send.NextCount | backend/routes/send.js:36-43 | the next number is the stored one plus 1 when it is a number, and 1 otherwise |
| Send.Bump | backend/routes/send.js:36-44 | the number drawn is written back under the key; every other key is unchanged |
| Send.DrawsCountUp | backend/routes/send.js:37-43 | successive draws for one key yield 1, 2, 3, … and leave other keys untouched |
| Send.CounterSuffixSpec | backend/routes/send.js:47-49 | the counter part has at least four digits (exactly four below 10000), is never cut, and reads back as the number |
| Send.InvoiceNumbersDistinct | backend/routes/send.js:47-49 | distinct numbers of one year give distinct invoice numbers |
| Send.InvoiceStore.constructor | backend/routes/send.js:36 | the store starts with the given counters |
| Send.InvoiceStore.HandleSend | backend/routes/send.js:12-87 | invalid data and a missing budget give 400 with the counters untouched; otherwise the key `<budget>-<year>` is bumped first, and the PDF's path and the number are returned, or 500 with the error |
| Process.RetryFromSpec | backend/routes/process.js:8-17 | no more calls than tries; every call but the last failed; a value is the first success; an error is the final try's |
| Process.Retry | backend/routes/process.js:8-17 | `retry` settles as `RetryFrom` says, after at most `retries` calls, with a constant delay between them |
| Process.FirstSuccessReturned | backend/routes/process.js:10-11 | a success on the first try is returned after one call |
| Process.PerformOcr | backend/routes/process.js:52-77 | Tesseract's errors become the empty text; only a path that is not a string fails |
| Process.OcrNeverRetried | backend/routes/process.js:22-77 | for a string path OCR runs exactly once, and its text (or "") is returned |
| Process.TextReply | backend/routes/process.js:32-39 | the empty text gets the warning, and any other text is sent alone; the status is always 200 |
| Process.HandleProcess | backend/routes/process.js:21-47 | a missing path gives 400 with no OCR run; otherwise always 200, with the text found after exactly one OCR run, or, for a path that is not a string, the empty text and a warning saying why after all three tries and two waits of 1000 ms |
| AuthService.TokenOf | backend/services/authService.js:18 | the token is the second space-separated part of the header |
| AuthService.BearerHeaderToken | backend/services/authService.js:18 | `Bearer <token>` yields the token |
| AuthService.NoSpaceNoToken | backend/services/authService.js:18-21 | a header without a space has no token |
| AuthService.VerifyToken | backend/services/authService.js:124-130 | the payload when verification succeeds; null when it throws |
| AuthService.HttpRequest.constructor | backend/services/authService.js:14 | a request has its header and no user |
| AuthService.AuthenticateJWT | backend/services/authService.js:12-29 | no header gives 401 "Keine Token-Angabe."; no token gives 401 "Token fehlt."; a failed verification gives 403; otherwise req.user is the payload and `next` is called exactly once; exactly one of reply and `next` happens |
| AuthService.FindByEmail | backend/services/authService.js:41 | the first user with the email, if there is one |
| AuthService.AllocateIdAsWritten | backend/services/authService.js:49-55 | the id as written: "1000" on an empty store, the const-assignment `TypeError` otherwise; stated by `AuthService.AllocationDisagreesAfterFirstUser` and `AuthService.SecondRegistration` |
| AuthService.AllocationDisagreesAfterFirstUser | backend/services/authService.js:49-55 | both allocations agree on an empty store; on any other store the allocation as written fails |
| AuthService.SecondRegistration | backend/services/authService.js:49-55 | as written a second registration fails with the const-assignment TypeError; intended it would get "1001" |
| AuthService.MaxId | backend/services/authService.js:52-55 | the largest id that reads as a number, if any |
| AuthService.NextUserId | backend/services/authService.js:49-55 | intended: one more than the largest numeric id, or 1000 |
| AuthService.NextUserIdFresh | backend/services/authService.js:49-55 | the intended id is never one already taken |
| AuthService.LoginUser | backend/services/authService.js:86-122 | an unknown email and a wrong password fail with the same message; on success the token signs {sub, email, name, budgetId} and the user is returned without the password |
| AuthService.UserStore.constructor | backend/services/authService.js:40 | the store holds the given users |
| AuthService.UserStore.RegisterUser | backend/services/authService.js:35-79 | a known email fails before hashing with the users unchanged; a non-empty store fails at the id reassignment; on an empty store the user "1000" is appended and returned without the password |
| AuthService.FirstUserCanLogIn | backend/services/authService.js:59-121 | the first user registered can log in with the password given, when the hash check accepts it |

## Left out

- The OpenCV analyses are not modelled. These are the grey conversion, mean and standard deviation, Laplacian, blur, Canny, `findContours`, `approxPolyDP`, `contourArea` and the perspective warp. A request carries what they would measure. Areas are the shoelace formula over integer points.
- Canvas drawing, `toBlob`/`convertToBlob`, `createImageBitmap`, image loading, Konva rendering and the camera stream are browser I/O. They become parameters: an encoder, a loaded size, `drawError`.
- The worker thread, its event listeners and promise scheduling are concurrency plumbing. The queue and the handlers are modelled sequentially.
- ScanProcessor.Analyse: a rejected `convertToBlob` is modelled as "nothing posted". The rejection happens inside a promise callback, so in JavaScript it never reaches the `catch`.
- ScanProcessor.Analyse does not model an exception thrown by OpenCV itself. The `catch` (ScanProcessor.jsx:321-323) posts `{error: err.message}`. For a thrown value that is not an `Error` that message is undefined, so the main thread calls no callback and `busy` stays true (ScanProcessor.jsx:16-43).
- ScanProcessor.Worker.OnRuntimeReady merges two events of the source into one: `cv.Mat` existing, which `onmessage` tests, and `cvReady` resolving, which drains the queue. On the thenable path `cvReady` resolves only when `cv.then(...)` rejects (ScanProcessor.jsx:136-145). When it succeeds, later messages are answered at once, but those queued before are never processed. The model does not capture that loss.
- ScanProcessor.Drain and ScanProcessor.RepliesInOrder state the replies in processing order. The worker posts an error at once but a blob only when `convertToBlob` settles (ScanProcessor.jsx:301-305). So the posted order can differ: draining [a good frame, a too-dark frame] can post the error first.
- Real timers, `fetch`/axios and `localStorage` are not modelled. Waits are returned as values, and responses and the stored token are parameters.
- Floating point is not modelled. `Math.hypot` lengths are compared as squared integer distances. The 10% inset, 0.707 and the aspect ratios are reals.
- CompressImage: qualities are integer tenths. In double precision, 0.9 lowered nine times by 0.1 is about 1.4e-16, the only value below 0.1, so the model and the floats agree.
- `toLowerCase` is modelled on ASCII letters only, with no Unicode case mapping.
- FileUploader.FileSession.HandleChange does not model the general `catch` with "Allgemeiner Fehler beim Laden der Datei: ". What can reach it is `URL.createObjectURL` or `new File` failing on a bad converter result, such as an empty array whose `converted[0]` is undefined (FileUploader.jsx:66-84). The converter's own rejection is modelled.
- FileUploader.FileSession.HandleChange does not model a failing read in `checkPdfHeader`. That call (FileUploader.jsx:39) comes before the `try`, so its rejection escapes the handler unhandled.
- DocumentEditor.ScaleFactor requires a positive image width. For width 0 JavaScript divides by zero to Infinity, and the reals have no such value.
- DocumentEditor.Editor.HandleOK requires at least one corner. The editor only shows the confirm button with four corners.
- CameraCapture.CameraSession.RemovePhotoAt requires an index inside the collection. The source reads `photos[idx].url` and throws otherwise.
- Review: the handlers require well-formed page arrays, which they only ever receive after a load. Review.ReloadPageWith also requires an index inside the collection.
- Review.ReloadPageWith does not model the interim render with the loading flag set. The model shows the state after the reply.
- React re-rendering and state batching are not modelled. In particular, the reload handler mutates the error and loading arrays in place before setting them. On a failed reload those arrays are already the state, so React skips the re-render: the page keeps showing its loading message, with no error, until some other update renders it. Review.ReloadPageWith states the state, not what is on screen.
- Review.Loaded takes each image's aspect ratio from a parameter, because image loading is browser I/O.
- Review.TextOf takes a `text` that is not a string as the empty text.
- Send.InvoiceStore.HandleSend takes the user's `budgetId` as a string, with the empty string for a missing one.
- Send.InvoiceStore.HandleSend treats each request as atomic. The route awaits `db.read()` and `db.write()` (send.js:35-44), so two concurrent requests for the same budget can read the same counter and draw the same invoice number. Send.DrawsCountUp holds only for requests handled one after another.
- The PDF generator is a parameter of `HandleSend`. backend/services/pdfService.js is not part of this model.
- The frontend page that calls the invoice route sends no `email`, so the route's validation would reject it. That page is not part of this model.
- AuthService.MaxId reads only ids made of decimal digits as numbers.
- bcrypt and jwt are function parameters: `hash`, `compare`, `sign`, `verify`.
- RequestWithRetry.Request and Process.Retry take `retries` as an integer. Other JavaScript values are not considered.
- Process.PerformOcr models the failure of `path.resolve` on a non-string path as a message given as a parameter.
- backend/services/ocrService.js, backend/routes/upload.js and backend/data/db.js are not part of this model. They are Tesseract, multer and lowdb wrappers. Only the OCR route's own logic is modelled.
- The UI-only and configuration files are not part of this model: routing, login and register pages, layout, cookie banner, the auth context, the API helper and the server setup.

## Findings

| source | as written | input that shows it | evidently intended | confidence | as-written member | corrected member |
|---|---|---|---|---|---|---|
| frontend/src/pages/Review.jsx:105-107 | when the reload reply has a warning, the handler logs it using an undeclared `i`; the `ReferenceError` is caught and becomes the page's error | reloading a page whose OCR now finds nothing (`{text: '', warning: …}`) keeps the old text and sets the page's error to "i is not defined" | log the warning and still reset the page to the reply's text | not executed | Review.ReloadWarningKeepsOldText | Review.ReloadIntendedResetsPage |
| frontend/src/components/FileUploader.jsx:206-212 | the `catch` sets the failure message, then `finally` calls `cleanupCurrent`, which sets the error to '' | any failing upload, e.g. a page whose compression rejects, leaves no message | keep the failure's message after the cleanup | not executed | FileUploader.FailureMessageLost | FileUploader.IntendedMessageTellsFailure |
| backend/services/authService.js:49-55 | the id is held in a `const` and reassigned whenever users exist, which throws a `TypeError` | registering a second user on a store holding user "1000" fails with "Assignment to constant variable." | give the new user one more than the largest id | not executed | AuthService.SecondRegistration | AuthService.NextUserIdFresh |
