# FullPageX, modelled in Dafny

FullPageX is a browser extension with two features. It captures a whole web page as one
tall image, and it records a video of a selected region of the visible page. The model
covers the three scripts that carry the logic:

- **Capture driver** (`capture.dfy`, module `Capture`). It plans the scroll steps and runs
  the capture loop. Capture answers that are missing or empty are skipped, and a final tile
  identical to the one before it is dropped. The tiles are stitched top to bottom on one
  canvas, whatever order their images load in. The result is handed to storage and the
  crop tab is opened.
- **Region recorder** (`recorder.dfy`, module `Recorder`). This is the state of the injected
  recorder as a class, with one method per event handler. The mask is a rectangle or circle
  selector, dragged and corner-resized, or a freeform path. Start checks the mask before
  recording. Stop and Exit are guarded, and the page flag keeps the recorder from being
  injected twice.
- **Crop and export view** (`cropper.dfy`, module `Cropper`). The preview is scaled to a
  700 px canvas. The crop rectangle is mapped back to image pixels. An image is sliced into
  A4 pages, and the PDF document is a class whose page count and placed images change in
  place.

`common.dfy` holds the `Option` type and integer min/max.

Pointer coordinates and page heights are integers. Lengths in the crop view are exact
reals, which idealises the page's floating-point numbers.

A failed stitch sends no final progress message: in `screenshot.js:113-116` the driver
alerts and returns before the "100 %" message of `screenshot.js:129`, and the model sends it
only after a successful stitch.

## Model

| member | source | states |
|---|---|---|
| Capture.StepCount | screenshot.js:28-30 | the step count is the ceiling of page height over viewport height: enough steps to cover the page, and one fewer would not |
| Capture.ScrollOffset | screenshot.js:39 | step i scrolls i viewports down, and the last step is pinned to the bottom of the page; its properties are OffsetWithinPage, OffsetsAdvanceWithoutGap, OffsetIsPinnedMinimum and StepsCoverPage |
| Capture.OffsetWithinPage | screenshot.js:39-40 | on a page at least one viewport high, every step scrolls to a position between the top and the last full viewport |
| Capture.OffsetsAdvanceWithoutGap | screenshot.js:39-40 | consecutive offsets strictly increase and are at most one viewport apart, so consecutive tiles leave no gap |
| Capture.OffsetIsPinnedMinimum | screenshot.js:39-40 | the offset chosen by the "last step" branch equals the step offset pinned to the bottom, min(i·viewport, total − viewport) |
| Capture.StepsCoverPage | screenshot.js:28-40 | every pixel row of the page lies inside the viewport of some step |
| Capture.ExamplePlan | screenshot.js:28-40 | a 2500 px page in a 1000 px viewport takes 3 steps at offsets 0, 1000, 1500 |
| Capture.Progress | screenshot.js:68 | the percentage sent after step i, truncated to an integer; its properties are ProgressIsPercentage |
| Capture.ProgressIsPercentage | screenshot.js:68 | reported progress stays within 0–100, never decreases from step to step, and is 100 after the last step |
| Capture.Kept | screenshot.js:60-65 | an answer is kept exactly when it is a non-empty data URL |
| Capture.Accepted | screenshot.js:49-65 | every kept tile is a non-empty answer, there are no more tiles than answers, and a tile is lost exactly when some answer was missing or empty (the order is AcceptedInStepOrder) |
| Capture.AcceptedInStepOrder | screenshot.js:49-65 | the kept tiles follow the step order with each answer's multiplicity: an answer contributes its own data URL or nothing, and consecutive runs of answers contribute consecutive runs of tiles |
| Capture.DropDuplicateFinal | screenshot.js:71-79 | the result is a prefix of the tiles, shorter by at most one, and shorter exactly when the last two tiles are identical; no distinct tile is lost |
| Capture.CaptureTiles | screenshot.js:28-79 | the loop scrolls to each planned offset and reports each step's progress; its tiles are the accepted answers with a duplicated final tile removed |
| Capture.LoadedHeightAdd | screenshot.js:91-93 | storing a tile in an empty slot adds exactly its height to the running total |
| Capture.SumHeights | screenshot.js:91-96 | the stitched canvas height, the heights of all tiles added up; AllLoaded ties it to the running total of the onload handlers |
| Capture.LoadStep | screenshot.js:89-93 | one onload event stores its tile at its own index, leaves the other slots as they were and adds its height |
| Capture.AllLoaded | screenshot.js:94-96 | once every image has loaded, every slot holds its tile and the total is the sum of all tile heights |
| Capture.Stitch | screenshot.js:83-105 | for any load order, the canvas is as wide as the first tile and as high as all tiles together, and tile k is drawn at the summed height of tiles 0..k−1 |
| Capture.DrawTiles | screenshot.js:98-102 | the draw loop puts tile k at the summed height of the tiles above it |
| Capture.TilesAbut | screenshot.js:99-102 | each tile starts where the previous one ends, and the last one ends at the canvas height |
| Capture.Finish | screenshot.js:113-129 | an empty stitch result only alerts. Otherwise the image is stored, the 100 % progress message follows, and the cropper tab is opened from the storage callback after the store |
| Recorder.Dragged | recorder.js:187-194 | a drag keeps the selector's size, never leaves the window's top or left, stays inside the window whenever it fits, and otherwise follows the pointer minus the grab offset |
| Recorder.Clamp | recorder.js:191-192 | Math.max(0, Math.min(v, hi)) is never negative, at most hi when hi is not negative, and v itself when v is already in range |
| Recorder.Resized | recorder.js:205-241 | the handle's edges follow the pointer and the opposite edges stay put, unless the 30 px minimum width or height takes over |
| Recorder.RepeatedMoveIsHarmless | recorder.js:81-84 | the window handlers are added again on every shape switch, so one move runs them several times; a second run changes nothing |
| Recorder.Xs | recorder.js:352 | the x coordinates of the path, one per point, in order |
| Recorder.Ys | recorder.js:353 | the y coordinates of the path, one per point, in order |
| Recorder.Min | recorder.js:354-355 | Math.min over the coordinates is a lower bound of every coordinate |
| Recorder.Max | recorder.js:356-357 | Math.max over the coordinates is an upper bound of every coordinate |
| Recorder.MinAttained | recorder.js:354-355 | the minimum is one of the coordinates |
| Recorder.MaxAttained | recorder.js:356-357 | the maximum is one of the coordinates |
| Recorder.BoundingBox | recorder.js:352-358 | every point of the path lies inside the freeform clip rectangle, whose sides are non-negative |
| Recorder.BoundingBoxIsTight | recorder.js:352-358 | each side of the freeform clip rectangle touches a point of the path |
| Recorder.Closed | recorder.js:340-343 | a path is closed when its ends are at most 15 px apart, compared squared instead of through Math.hypot |
| Recorder.Inset | recorder.js:364-372 | the clip rectangle lies inside the selector with the 4 px border on each of its four sides |
| Recorder.Validate | recorder.js:337-374 | a freeform path is accepted exactly when it has at least 3 points and its ends are at most 15 px apart; too few points and an open path give different outcomes. A rectangle or circle is accepted exactly when the selector exists, and its clip is the selector shrunk by the 4 px border on every side |
| Recorder.Recorder.constructor | recorder.js:79-92 | a new recorder has rectangle shape, the 300×200 selector at (100, 100), an empty path and no recording |
| Recorder.Recorder.ChangeShape | recorder.js:81-84 | switching shape empties the path; a rectangle or circle gets a fresh selector at its initial place, freeform has none |
| Recorder.Recorder.FreeformMouseDown | recorder.js:274-280 | mouse down restarts the path with the one point and starts drawing |
| Recorder.Recorder.FreeformMouseMove | recorder.js:282-287 | a move appends the point while drawing and changes nothing otherwise |
| Recorder.Recorder.FreeformMouseUp | recorder.js:289-294 | mouse up ends drawing and keeps the path |
| Recorder.Recorder.HandleMouseDown | recorder.js:166-173 | pressing a corner handle starts a resize from that corner, with the pointer as origin |
| Recorder.Recorder.SelectorMouseDown | recorder.js:177-185 | unless a resize is under way, pressing the selector starts a drag and records where in the box it was grabbed |
| Recorder.Recorder.PointerMove | recorder.js:187-198 | a move during a drag places the selector by Dragged; during a resize it reshapes it by Resized and moves the origin to the pointer; otherwise nothing changes |
| Recorder.Recorder.PointerUp | recorder.js:200-203 | mouse up ends any drag or resize |
| Recorder.Recorder.Start | recorder.js:332-392 | while recording, Start does nothing; otherwise its outcome is Validate's. An open path is cleared. An accepted mask fixes the clip, empties the chunks, zeroes the timer and starts recording. A rectangle or circle is always accepted |
| Recorder.Recorder.Stop | recorder.js:460-471 | Stop ends a recording and reports that it did; when not recording it changes nothing |
| Recorder.Recorder.Exit | recorder.js:473-488 | Exit stops any recording and clears the page's "recorder active" flag |
| Recorder.Recorder.Tick | recorder.js:405-407 | each timer period adds 0.3 s to the elapsed time while recording |
| Recorder.Recorder.DataAvailable | recorder.js:389-391 | a non-empty chunk is appended and an empty one is dropped |
| Recorder.Page.constructor | recorder.js:1-3 | a page starts without the "recorder active" flag |
| Recorder.Inject | recorder.js:1-3 | when the page flag is set, injection does nothing; otherwise it sets the flag and creates a recorder in its initial state |
| Cropper.PreviewScale | fabric_cropper_ui.js:24-29 | the preview factor fits the image into 700 px and never enlarges it; a wide image exactly fills the width |
| Cropper.Unscaled | fabric_cropper_ui.js:65-69 | dividing by the zoom yields the image rectangle whose preview is the crop rectangle |
| Cropper.UnscaleRoundTrip | fabric_cropper_ui.js:65-69 | selecting on the preview at any zoom and dividing by it gives back the region in image pixels |
| Cropper.ExampleUnscale | fabric_cropper_ui.js:144-148 | the rectangle (50, 50, 100, 80) on a half-size preview is (100, 100, 200, 160) in image pixels |
| Cropper.InitialCropAsWritten | fabric_cropper_ui.js:34-39 | the rectangle the page creates: the whole canvas, 700 px wide and as high as the preview |
| Cropper.InitialCropOverhangsNarrowImage | fabric_cropper_ui.js:34-39 | for every image narrower than 700 px, the initial rectangle as written is 700 px wide in image pixels, past the image's edge |
| Cropper.InitialCrop | fabric_cropper_ui.js:34-39 | the corrected initial rectangle covers exactly the displayed image, i.e. the whole image once unscaled |
| Cropper.InitialCropAgreesOnWideImages | fabric_cropper_ui.js:25-39 | for images at least 700 px wide the corrected rectangle equals the one the page creates |
| Cropper.PageHeightPx | fabric_cropper_ui.js:100-101 | one page holds a positive image height that, scaled to the page width, is exactly the page height |
| Cropper.Ceil | fabric_cropper_ui.js:102 | Math.ceil gives the least integer not below its argument |
| Cropper.TotalPages | fabric_cropper_ui.js:100-102 | there are just enough page-high slices to hold the image, one fewer would not do, and zero exactly for an empty image |
| Cropper.SliceY | fabric_cropper_ui.js:105 | slice i starts i page heights down the image |
| Cropper.SliceHeight | fabric_cropper_ui.js:106 | a slice is at most a page high and stays inside the image; it is a full page or it ends at the image's bottom |
| Cropper.SliceBounds | fabric_cropper_ui.js:104-106 | every slice has positive height, at most one page, and stays inside the image; every slice but the last is a full page, and the last is the remainder |
| Cropper.SlicesContiguous | fabric_cropper_ui.js:105-106 | each slice starts where the previous one ends |
| Cropper.SlicesCoverImage | fabric_cropper_ui.js:102-106 | all the slices together are exactly the image's height |
| Cropper.DisplayHeight | fabric_cropper_ui.js:119 | a slice placed at the page width keeps its aspect ratio: display height × image width = slice height × page width |
| Cropper.DisplayHeightFitsPage | fabric_cropper_ui.js:119-121 | a slice scaled to the page width is visible and no higher than a page; a full slice fills the page exactly |
| Cropper.Placement | fabric_cropper_ui.js:104-121 | slice i of an image is placed on page first + i, starting at SliceY, with its SliceHeight and the page width and DisplayHeight |
| Cropper.Placements | fabric_cropper_ui.js:104-122 | the list of addImage calls holds one entry per slice, entry i on page first + i |
| Cropper.PdfDocument.constructor | fabric_cropper_ui.js:161 | a new A4 document has one blank page |
| Cropper.PdfDocument.AddPage | fabric_cropper_ui.js:117 | adding a page increases the page count by one |
| Cropper.PdfDocument.AddImage | fabric_cropper_ui.js:121 | placing an image appends it to the document's images |
| Cropper.AddPagesToPdf | fabric_cropper_ui.js:96-123 | the first slice goes on the current page and each further slice on a new page; the document gains exactly the slices' placements, in order |
| Cropper.NewPaginatedPdf | fabric_cropper_ui.js:161-163 | a fresh A4 document filled from an image has one page per slice, and at least one |
| Cropper.CropperPage.constructor | fabric_cropper_ui.js:9-11 | the view starts with no image and no crop rectangle |
| Cropper.CropperPage.Load | fabric_cropper_ui.js:14-56 | a missing or empty stored image changes nothing. Otherwise the preview is shown at PreviewScale on a 700 px canvas and the crop rectangle is the corrected InitialCrop; the page's own rectangle is InitialCropAsWritten, 700 px wide |
| Cropper.CropperPage.AdjustCrop | fabric_cropper_ui.js:35-54 | once the crop rectangle exists, the user's move replaces its position and size as the export reads them; nothing else changes |
| Cropper.CropperPage.CropInImage | fabric_cropper_ui.js:60-69 | the crop region exists exactly when the image and crop rectangle do; it is the rectangle whose preview is the crop rectangle |
| Cropper.CropperPage.CropRegion | fabric_cropper_ui.js:60-93 | the cropped-PNG export copies exactly CropInImage, and nothing before loading |
| Cropper.CropperPage.CroppedPdf | fabric_cropper_ui.js:138-166 | the cropped-PDF export paginates the same region as the PNG export onto a fresh A4 document, and nothing before loading |
| Cropper.CropperPage.FullPng | fabric_cropper_ui.js:169-178 | the full-PNG export downloads the stored image, and nothing when there is none |
| Cropper.CropperPage.FullPdf | fabric_cropper_ui.js:181-208 | the full-PDF export paginates the decoded image onto a fresh A4 document, and nothing when there is no stored image |

## Left out

- DOM and browser effects are not modelled: element creation and styling, hiding and restoring fixed or sticky elements, the sleeps, `alert` text, click animations, pixel contents, `drawImage`, PNG encoding, downloads, jsPDF and fabric.js rendering. Each shows up only as the state change or effect it causes.
- Chrome messaging and storage are parameters. The capture answers are a sequence of `Option` values, the stacked tiles' decoded sizes and load order are inputs, and the stored image and its natural size are arguments of `Load` and `FullPdf`.
- `popup.js` and `background.js`, the message relay and the popup buttons, are not part of this model.
- Capture.Stitch: only non-empty lists of tiles that all decode are modelled. With no tiles the source's promise never settles. When a tile fails to decode, the outcome depends on which tile finishes last: an empty string when it is the failing one. `Finish("")` models the empty-string outcome.
- Capture.Stitch: the tiles are stacked whole, as the code does (`screenshot.js:98-102`). When the page height is not a multiple of the viewport height, the pinned last tile overlaps the one before it by steps × viewport − page height rows, and the stitched image shows that band twice (for a 2500 px page in a 1000 px viewport, rows 1500-2000 of the page). The model states where each tile is drawn, not which page row each canvas row shows, so it does not exhibit this repetition.
- Capture.CaptureTiles: the viewport height must be positive. With a zero-high viewport the source's step count is infinite.
- Capture.ProgressIsPercentage: progress is computed exactly as ⌊(i+1)·100/steps⌋. The source rounds `(i+1)/steps*100` in floating point, so it can report one less (for example 28 for 29 of 100 steps).
- Cropper and its PDF members: the crop view computes with exact reals. IEEE rounding and canvas sizes truncated to integer pixels are not modelled. Images of zero width, which give Infinity or NaN in the source, are excluded by `imageWidth > 0`.
- Cropper.CropperPage.AdjustCrop: fabric's own move and resize are an input, and the model requires a positive width. A fabric resize changes the rectangle's `scaleX` and `scaleY`, not its `width` and `height`, and the export reads only `left`, `top`, `width` and `height` (`fabric_cropper_ui.js:66-69`). So in the page a resize is ignored by every export. The model does not capture this: its input stands for the rectangle as the export reads it.
- Cropper.CropperPage.Load: the model adopts the corrected initial rectangle `InitialCrop` of the finding below. The page creates `InitialCropAsWritten`, the whole 700 px canvas. For an image narrower than 700 px, an untouched crop exported by `CropRegion` or `CroppedPdf` is therefore the whole image in the model and 700 px wide in the page. For images at least 700 px wide the two agree (`InitialCropAgreesOnWideImages`).
- Recorder.Recorder.PointerMove: the source adds the window mousemove and mouseup handlers again on every switch to a rectangle or circle. The model runs each handler once; `RepeatedMoveIsHarmless` shows that a repeated run changes nothing.
- Recorder: `resetShape` is defined twice in the source, and the second definition, which is the one in force, is modelled.
- Recorder: with no selector, the drag handler throws before changing anything, which is modelled as a no-op.
- Recorder: the start/stop buttons' disabled flags, the timer's text and the per-tick screen capture drawn into the offscreen canvas (circle and freeform clipping, scroll offset, device pixel ratio) are not modelled.
- Recorder.Recorder.Tick: the elapsed time is kept in exact tenths of a second. The source adds the float 0.3 each period, which drifts (0.3 + 0.3 + 0.3 is 0.8999…); the drift is not modelled, and it only affects the timer's text.
- Recorder: the video blob is not modelled. Chunks are kept only as their sizes, to show which ones are dropped.

## Findings

| source | as written | input that shows it | evidently intended | confidence | as-written member | corrected member |
|---|---|---|---|---|---|---|
| fabric_cropper_ui.js:34-39 | the initial crop rectangle is as wide as the 700 px canvas | a stitched image 500 px wide: the preview is at scale 1, so the rectangle is 700 px wide in image pixels and 200 px past the image's right edge | the comment says the rectangle covers the entire image, so it should be as wide as the displayed image | not executed | Cropper.InitialCropOverhangsNarrowImage | Cropper.InitialCrop |
