# Image editor core, modelled in Dafny

A browser image editor offers several tools for an uploaded picture. This
project models the logic of four of them and proves properties of that logic:

- **Crop tool** (`image_cropper.dfy`, module `ImageCropper`). A crop
  rectangle lies over the image canvas. Dragging inside it moves it, clamped
  to the canvas. Grabbing a corner handle (within 8 units on both axes)
  resizes it, keeping its top-left corner. Without an aspect lock each side
  stays at least 50, and stays within the canvas only while at least 50 of
  room remains past the box's position. An aspect lock (free, 1:1, 4:3 or
  16:9) ties width to height, and a locked side can then drop below 50.
  Apply records the cropped result, and Reset puts the box back at its
  initial place: centred, 80% of the image (except while a result is shown;
  see Findings).
  - The pure geometry is a set of functions over exact reals.
  - The tool's state is the class `CropSession`, with one method per event
    handler.
  - `croppedFrom` stands for the cropped result. While it is set, the
    result image is shown in place of the canvas, so the canvas is not
    mounted.
- **Noise removal** (`noise_removal.dfy`, module `NoiseRemoval`). The image
  is drawn into a separate copy (`tempData`). For each RGB byte, the copy's
  byte is blended with the rounded mean of its clipped (2r+1)×(2r+1)
  neighbourhood in the copy, where r = ⌊strength/2⌋ and the blend factor is
  strength/10. The result overwrites the RGB bytes of the canvas buffer; its
  alpha bytes are kept.
  - The loops work on arrays, in place.
  - They are proved equal to `NoiseReduced`, a pure per-pixel map, so the
    result does not depend on the visiting order.
- **Background carving** (`background_carver.dfy`, module `BackgroundCarver`).
  Each pixel of the painted working canvas that shows the marker colour
  (R > 200, G < 100, B < 100) makes the same pixel of a copy of the original
  fully transparent.
  - The loop is proved equal to the reference definition `Carved`.
- **Filter panel** (`image_filters.dfy`, module `ImageFilters`). The panel
  holds seven filter amounts and the slider range of each. One filter may be
  selected for editing, and a reset is available. The image is re-rendered
  through a filter chain whose order is fixed.

`common.dfy` (module `Common`) holds `Option`, the `Byte` type, integer
`Min`/`Max` and their counterparts on reals, `MinReal`/`MaxReal`.

All arithmetic is exact. JavaScript's `Math.round(n / d)` becomes
`RoundDiv(n, d) = ⌊(2n + d) / 2d⌋`, which rounds halves upwards. The blend
`Math.round(t·(1 − s/10) + m·s/10)` becomes `RoundDiv(t·(10 − s) + m·s, 10)`.

## Model

| member | source | states |
|---|---|---|
| BackgroundCarver.IsMarker | src/components/Canvas.tsx:132 | the marker test is strict on all three channels, so a marked pixel's red exceeds its green and blue by more than 100 |
| BackgroundCarver.CarvePixel | src/components/Canvas.tsx:132-134 | one pixel of the output is four bytes whose RGB are the original's, with alpha 0 when the working pixel is marked and the original alpha otherwise |
| BackgroundCarver.Carved | src/components/Canvas.tsx:130-136 | the carved buffer, pixel after pixel, has the length of the original |
| BackgroundCarver.CarvedAt | src/components/Canvas.tsx:130-136 | byte i of the carved buffer is 0 if i is an alpha index of a marked pixel, and the original byte otherwise |
| BackgroundCarver.OnlyAlphaChanges | src/components/Canvas.tsx:130-136 | RGB bytes equal the original; an alpha byte is either 0 or the original alpha |
| BackgroundCarver.AlphaOfPixel | src/components/Canvas.tsx:132-134 | a pixel's output alpha is 0 if the working pixel is marked, and the original alpha otherwise |
| BackgroundCarver.NoMarkerIsIdentity | src/components/Canvas.tsx:130-136 | with no marked pixel, the output equals the original byte for byte |
| BackgroundCarver.CarveIdempotent | src/components/Canvas.tsx:130-136 | carving the output again with the same working buffer changes nothing |
| BackgroundCarver.ProcessImage | src/components/Canvas.tsx:105-136 | without a canvas or original image there is no result; otherwise the loop over i += 4 yields exactly `Carved(working, original)`, and the working buffer is only read |
| BackgroundCarver.TwoPixelExample | src/components/Canvas.tsx:130-136 | a marker pixel loses only its alpha, and a plain pixel keeps all four bytes |
| NoiseRemoval.RoundDiv | src/components/NoiseRemoval.tsx:104-106 | `Math.round(n / d)`: the result q is the integer with q − 1/2 ≤ n/d < q + 1/2, so halves round upwards |
| NoiseRemoval.Radius | src/components/NoiseRemoval.tsx:71 | `Math.floor(strength / 2)`: the radius r satisfies 2r ≤ strength ≤ 2r + 1 |
| NoiseRemoval.Blend | src/components/NoiseRemoval.tsx:109-111 | the rounded blend of source byte and mean lies between the two, so it is a byte |
| NoiseRemoval.WindowCountBounds | src/components/NoiseRemoval.tsx:87-101 | the in-image neighbours counted by the ky/kx loops number at most (k+r)·(2r+1) so far, and at least one once the centre row is passed |
| NoiseRemoval.NeighbourCount | src/components/NoiseRemoval.tsx:87-101 | out-of-image neighbours are skipped, yet the centre counts, so 1 ≤ count ≤ (2r+1)² |
| NoiseRemoval.WindowSumBounds | src/components/NoiseRemoval.tsx:87-101 | a neighbourhood whose values lie in [lo, hi] has a sum between lo·count and hi·count |
| NoiseRemoval.Blurred | src/components/NoiseRemoval.tsx:103-106 | the rounded mean of a channel over the clipped neighbourhood is in 0..255 |
| NoiseRemoval.BlurredWithinNeighbourhood | src/components/NoiseRemoval.tsx:103-106 | the rounded mean lies between the smallest and the largest value of the neighbourhood |
| NoiseRemoval.MeanFor | src/components/NoiseRemoval.tsx:83-106 | the blurred value belonging to a byte of the copy, at its pixel and channel, is in 0..255 |
| NoiseRemoval.ReducedByte | src/components/NoiseRemoval.tsx:109-112 | an alpha byte keeps the canvas buffer's value; an RGB byte lies between the copy's byte and its blurred value |
| NoiseRemoval.NoiseReduced | src/components/NoiseRemoval.tsx:79-114 | the reduced buffer has the canvas buffer's length and keeps every one of its alpha bytes |
| NoiseRemoval.AlphaUntouched | src/components/NoiseRemoval.tsx:109-112 | every alpha byte of the result is the alpha byte of the canvas buffer |
| NoiseRemoval.OutputBetweenSourceAndMean | src/components/NoiseRemoval.tsx:109-111 | every output RGB byte lies between the source byte and the blurred value |
| NoiseRemoval.RadiusZeroMean | src/components/NoiseRemoval.tsx:87-106 | with radius 0 the mean is the pixel's own value |
| NoiseRemoval.StrengthOneRGB | src/components/NoiseRemoval.tsx:71-111 | strength 1 leaves every RGB byte of the copy unchanged, whatever the canvas buffer holds |
| NoiseRemoval.StrengthOneIsIdentity | src/components/NoiseRemoval.tsx:71-111 | when the canvas buffer equals the copy, strength 1 returns the copy byte for byte |
| NoiseRemoval.StrengthTenIsMean | src/components/NoiseRemoval.tsx:71-111 | at strength 10 every RGB byte is the rounded mean of the clipped 11×11 neighbourhood |
| NoiseRemoval.ReducedPixel | src/components/NoiseRemoval.tsx:81-112 | the four bytes of pixel (x, y) of the result: three blends and the untouched alpha |
| NoiseRemoval.ReducedIsUnique | src/components/NoiseRemoval.tsx:79-114 | a buffer has every pixel reduced exactly when it is the per-pixel map `NoiseReduced` |
| NoiseRemoval.BoxMean | src/components/NoiseRemoval.tsx:83-106 | the ky/kx loops with their `continue`s compute, per channel, the rounded mean `Blurred` of the clipped neighbourhood |
| NoiseRemoval.ReducePixel | src/components/NoiseRemoval.tsx:81-112 | one pass of the pixel body writes the three blended RGB bytes of pixel (x, y) and no other byte |
| NoiseRemoval.ReduceRow | src/components/NoiseRemoval.tsx:80-113 | one pass of the x loop finishes row y, keeps earlier rows and leaves later bytes untouched |
| NoiseRemoval.ReduceRows | src/components/NoiseRemoval.tsx:79-114 | the y loop leaves every pixel reduced |
| NoiseRemoval.ApplyNoiseReduction | src/components/NoiseRemoval.tsx:37-114 | without canvas or image nothing changes; otherwise the buffer becomes `NoiseReduced(tempData, data)`, reading only from tempData |
| ImageCropper.RatioOf | src/components/ImageCropper.tsx:306-337 | Free means no ratio; each of the other buttons gives a ratio of at least 1 |
| ImageCropper.Contains | src/components/ImageCropper.tsx:137-138 | the drag test is inclusive on all four edges; a box of negative width or height contains no point |
| ImageCropper.InitialBox | src/components/ImageCropper.tsx:42-49 | the box is 80% of the image on each axis, has equal margins, and lies inside the image |
| ImageCropper.HitHandle | src/components/ImageCropper.tsx:110-123 | the result is the first handle in the order TL, TR, BL, BR whose corner is within 8 on both axes, and none exactly when no corner is |
| ImageCropper.DragAxis | src/components/ImageCropper.tsx:155-156 | the clamped position is never negative, keeps a box that fits inside, is the unclamped one when that is allowed, stops at 0 or at the far edge when the target lies past it, and is 0 for a box wider than the canvas |
| ImageCropper.DragIsNearest | src/components/ImageCropper.tsx:155-156 | the clamped position is the allowed position nearest the unclamped one |
| ImageCropper.DragStaysInside | src/components/ImageCropper.tsx:149-162 | a drag step keeps a box that fits inside the canvas, with its size unchanged |
| ImageCropper.ResizeAxis | src/components/ImageCropper.tsx:171-172 | a resized side is at least 50; it stays within the canvas when 50 of room remains, and is exactly 50 otherwise; a request past the edge stops at the edge, one below 50 stops at 50, one in range is taken as is |
| ImageCropper.ResizeIsNearest | src/components/ImageCropper.tsx:171-172 | the resized side is the size from 50 to the room left nearest the requested one |
| ImageCropper.ResizedBox | src/components/ImageCropper.tsx:165-190 | a resize never moves x or y; without a lock each side is clamped independently; under a lock width = height·ratio, with the width-based height used when it fits below the box |
| ImageCropper.LockedResizeCanUndercutMinimum | src/components/ImageCropper.tsx:175-184 | under a 16:9 lock the height after a resize can be below 50 |
| ImageCropper.ResizeCanLeaveCanvas | src/components/ImageCropper.tsx:171-172 | with less than 50 of room the resized box extends past the canvas edge |
| ImageCropper.FitToRatio | src/components/ImageCropper.tsx:278-294 | x and y are kept and width = height·ratio; if the width-based height overflows the canvas, the height fills the room left and the box becomes strictly narrower |
| ImageCropper.CropSession.constructor | src/components/ImageCropper.tsx:13-21 | initial state: empty box, idle, free aspect, no result, default canvas size |
| ImageCropper.CropSession.ImageLoaded | src/components/ImageCropper.tsx:29-53 | the image is remembered; with the canvas mounted, the canvas takes its size and the initial box is placed |
| ImageCropper.CropSession.MouseDown | src/components/ImageCropper.tsx:125-142 | only on the mounted canvas, where the handler sits; a handle hit starts a resize at the point; otherwise a point in the closed box starts a drag; otherwise nothing changes; the box never changes |
| ImageCropper.CropSession.MouseMove | src/components/ImageCropper.tsx:144-205 | with no canvas or no gesture nothing changes; a drag moves the box by the clamped displacement and keeps a fitting box inside; a resize gives `ResizedBox`; the start point follows the pointer |
| ImageCropper.CropSession.MouseUp | src/components/ImageCropper.tsx:207-210 | only on the mounted canvas; both gestures end and nothing else changes |
| ImageCropper.CropSession.MouseLeave | src/components/ImageCropper.tsx:212-215 | only on the mounted canvas; both gestures end and nothing else changes |
| ImageCropper.CropSession.ChangeAspectRatio | src/components/ImageCropper.tsx:273-296 | the choice is recorded; a ratio with a mounted canvas fits the box via `FitToRatio`; Free keeps the box |
| ImageCropper.CropSession.ApplyCrop | src/components/ImageCropper.tsx:217-239 | with a mounted canvas and a loaded image, the current box becomes the result, which then replaces the canvas |
| ImageCropper.CropSession.ResetCropAsWritten | src/components/ImageCropper.tsx:241-258 | the guard returns early while a result is displayed; otherwise the initial box is restored, the result is cleared and the aspect choice is kept |
| ImageCropper.CropSession.ResetCrop | src/components/ImageCropper.tsx:241-258 | corrected guard: with an image loaded, the initial box is restored, the result is cleared so the canvas is back, and the canvas is sized to the image again |
| ImageCropper.ResetAfterCropAsWritten | src/components/ImageCropper.tsx:241-258 | load, apply, reset: the cropped result is still displayed |
| ImageCropper.ResetAfterCrop | src/components/ImageCropper.tsx:241-258 | load, apply, corrected reset: the canvas is back at 800×600 with the initial box (80, 60, 640, 480) of an 800×600 image |
| ImageCropper.DragToEdge | src/components/ImageCropper.tsx:125-164 | press, drag far right, release: the box stops at the right edge, at the same size, and the tool is idle |
| ImageFilters.With | src/components/ImageFilters.tsx:100-103 | the chosen field gets the new value and the other six are unchanged |
| ImageFilters.WithLaws | src/components/ImageFilters.tsx:100-103 | writing back the current amount changes nothing; a later write to the same field wins |
| ImageFilters.FilterMax | src/components/ImageFilters.tsx:110-125 | the maximum is 100 for grayscale, sepia and invert, 20 for blur, and 200 for brightness, contrast and saturate |
| ImageFilters.DefaultsInRange | src/components/ImageFilters.tsx:24-32 | the default amounts lie on every slider's range |
| ImageFilters.WithKeepsRange | src/components/ImageFilters.tsx:226-231 | setting a slider value keeps every amount on its range |
| ImageFilters.Unit | src/components/ImageFilters.tsx:66-74 | the unit is px exactly for blur, and % for the rest |
| ImageFilters.FilterChain | src/components/ImageFilters.tsx:66-74 | the chain lists the seven filters in the order grayscale, sepia, invert, blur, brightness, contrast, saturate, each with its amount and unit |
| ImageFilters.ChainOrderIsComplete | src/components/ImageFilters.tsx:66-74 | each filter appears exactly once in the chain |
| ImageFilters.ChainDeterminesValues | src/components/ImageFilters.tsx:66-74 | two records with the same chain are equal: the chain carries every amount |
| ImageFilters.Toggled | src/components/ImageFilters.tsx:106-108 | toggling the selected filter deselects it, and toggling any other filter selects that one |
| ImageFilters.ToggleTwice | src/components/ImageFilters.tsx:106-108 | toggling the same filter twice restores the selection only when nothing or that filter was selected |
| ImageFilters.FilterPanel.constructor | src/components/ImageFilters.tsx:23-36 | initial state: default amounts, nothing selected, no image |
| ImageFilters.FilterPanel.ApplyFilters | src/components/ImageFilters.tsx:54-81 | without an image nothing happens; otherwise the original image is drawn again through the current chain, whatever was shown before |
| ImageFilters.FilterPanel.ImageLoaded | src/components/ImageFilters.tsx:44-47 | the loaded image is rendered with the current amounts |
| ImageFilters.FilterPanel.ResetFilters | src/components/ImageFilters.tsx:83-95 | the amounts return to the defaults, nothing is selected, and the image is rendered again |
| ImageFilters.FilterPanel.HandleFilterChange | src/components/ImageFilters.tsx:97-104 | with no selection nothing happens; otherwise only the selected amount becomes value[0], every amount stays in range, and the image is rendered again |
| ImageFilters.FilterPanel.HandleToggleFilter | src/components/ImageFilters.tsx:106-108 | the selection becomes `Toggled(old selection, filter)` and nothing else changes |

## Left out

- Brush painting (`src/components/Canvas.tsx:41-103`): the stroke compositing is the browser's, so the working buffer is an arbitrary input.
- The rest of `processImage` after the loop (writing the carved buffer back, encoding, showing the result): `ProcessImage` returns the carved buffer instead.
- The `isProcessing` flag, toasts, downloads and `toDataURL` encoding: UI and I/O.
- `getContext` returning null (`src/components/Canvas.tsx:113,120`, `src/components/NoiseRemoval.tsx:45-48`, `src/components/NoiseRemoval.tsx:61-65`, `src/components/ImageCropper.tsx:35,226`, `src/components/ImageFilters.tsx:59`): a browser failure the model does not produce.
- Floating point: all arithmetic is exact. The crop geometry uses reals, and the noise blend uses integers with half-up rounding. JavaScript double rounding near .5 ties is not captured.
- NoiseRemoval.ApplyNoiseReduction: `loaded` stands for the guard on canvas and image. Drawing the original over the canvas before reading it (`src/components/NoiseRemoval.tsx:50-55`) is browser compositing; `data` and `tempData` are given buffers.
- The noise tool's `resetImage` and the carving canvas's `resetCanvas`: they redraw the original and are not part of the modelled loops.
- Display-to-canvas coordinate scaling (`getRelativeCoordinates`): pointer positions are given in canvas coordinates.
- ImageCropper.CropSession.ResetCrop: the corrected reset sizes the canvas to the image but does not model redrawing the image onto the remounted canvas (`drawCanvas`).
- Cursor styling in `handleMouseMove` and all drawing of the overlay and handles (`drawCanvas`).
- ImageCropper.CropSession.ApplyCrop: the pixels copied by `drawImage` are not modelled; the result is described by the box it was cut from.
- ImageFilters.FilterChain: the exact CSS text (whitespace, number formatting) is not modelled, only the sequence of filter functions. The pixel effect of the filters belongs to the browser.
- ImageFilters.FilterPanel.HandleFilterChange: requires a non-empty value list on the selected slider's range, which is what the slider emits.
- Loading images and React effect ordering: events are modelled as sequential method calls. An image load is the method `ImageLoaded`.
- `src/components/FileUpload.tsx`, `src/components/ResultPreview.tsx` and `src/pages/Index.tsx`: file I/O and UI orchestration.

## Findings

| source | as written | input that shows it | evidently intended | confidence | as-written member | corrected member |
|---|---|---|---|---|---|---|
| src/components/ImageCropper.tsx:242 | `resetCrop` returns early when there is no canvas element. The canvas is replaced by the cropped image while a result exists (lines 357-372), so Reset never clears a cropped result | load an 800×600 image, press Apply Crop, press Reset: the cropped image stays (`ImageCropper.ResetAfterCropAsWritten`) | Reset clears the result and returns to the editing canvas with the initial box. The canvas element mounted again starts at 300×150 and the image-load effect does not run again, so the fix must also size it to the image (`ImageCropper.ResetAfterCrop`) | high; not executed | ImageCropper.CropSession.ResetCropAsWritten | ImageCropper.CropSession.ResetCrop |
