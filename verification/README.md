# Thatcherizer, modelled in Dafny

The Thatcherizer is a photo-booth kiosk that demonstrates the Thatcher
illusion. A visitor takes a photo on an 800 x 480 touch screen. The program
finds the eyes and mouth, and the visitor can adjust those three rectangles.
The program then flips each rectangle upside down inside the mirrored photo
(blending it through a soft alpha mask), saves the plain and the
"thatcherized" crops, and shows both. The visitor can flip the two pictures
and send a composite of them to the printer.

This project models that program as pure functions and proves properties
about them:

- `Geometry`: screen and image coordinates, and the centred crop window of
  the live view.
- `Events`: the mouse and keyboard events the program reacts to.
- `Buttons`: the round touch buttons. A button reports `enter`, `move`,
  `down`, `up`, `click` and `exit` from mouse events.
- `Features`: the drag-to-draw rectangle editor for one facial feature.
- `Detection`: how classifier detections become the two eye rectangles and
  the mouth rectangle, including the defaults.
- `Images`: images as rows of pixels, with mirror, crop, rotate by 180
  degrees, and paste.
- `Compositor`: `thatcherizePhoto`. Each rectangle is flipped top to bottom
  in turn, then both images are cut to 360 x 480.
- `Numbering`: `get_lastFileNumber` and the numbering of the output files,
  with Python 2's string comparison, `int()` and `zfill`.
- `PrintLayout`: `assembleCompositeImage`, meaning where the two pictures
  land on the print template.
- `App`: the seven screens as one `AppState` datatype, and their
  `ProcessInput` and `Update`. It also holds the main loop as `Tick` and
  `Run`, over a `World` that records the files saved and the prints sent.
- `AppProps`: the properties of the screens and the loop:
  - the countdown, fade and flip schedules;
  - an invariant every reachable screen keeps;
  - that files are only ever added;
  - when the files of a run are written and printed.

The loop, in the program's terms:

- Each tick first drops the events from the first quit or escape onwards.
- It then hands the remaining events to the active screen, then calls
  `Update`, then moves to the screen the active one switched to, if any.
- Any exception ends the program, but the files already saved stay on disk.
- A quit ends it after the tick. Quitting has already shut pygame down, so a
  screen built in the same tick fails at once. That screen is the one
  built by a switch.

Everything outside the program is a parameter:

- the camera frame of each tick (possibly absent), and the classifier's
  detections;
- the eye-height rule, the resized alpha mask and the paste blend;
- the print scaling and the print template;
- the stems of the files already in the output directory.

## Model

| member | source | states |
|---|---|---|
| Geometry.ScreenToImage | thatcherizer.py:702-716 | a screen rectangle moves 80 pixels left into image coordinates; its size is kept |
| Geometry.ImageToScreen | thatcherizer.py:719-732 | an image rectangle moves 80 pixels right into screen coordinates; its size is kept |
| Geometry.ConversionRoundTrip | thatcherizer.py:702-732 | the two conversions are inverse to each other, in both orders |
| Geometry.CoversAfterConversion | thatcherizer.py:702-716 | a screen pixel is inside a rectangle exactly when the image pixel 80 columns to its left is inside the converted rectangle |
| Geometry.CropWindow | thatcherizer.py:675-686 | the crop window has the viewer's size, and its centre (by floor halving) is the image's centre |
| Geometry.CropWindowInsideIff | thatcherizer.py:675-686 | the centred window lies inside the image exactly when it is no larger than the image on either axis |
| Geometry.LiveViewWindow | thatcherizer.py:218-225 | on the 640 x 480 camera the live view shows the window (120, 40, 400, 400) |
| Buttons.New | thatcherizer.py:571-590 | a new button is up, not hovered and not entered, and has never seen a press |
| Buttons.HandleEvent | thatcherizer.py:612-666 | non-mouse events change nothing and report nothing; the only failure is a release inside before any press or release was seen; a release always leaves the button up and forgets the press; a press records whether it was inside; entering and leaving follow the circle |
| Buttons.PressTags | thatcherizer.py:634-660 | 'click' exactly on a release inside whose last press was inside; 'down' exactly on a press inside; 'up' exactly on a release while held |
| Buttons.HoverTags | thatcherizer.py:622-664 | 'enter' exactly on entering the circle, 'exit' exactly on leaving it after having entered, 'move' exactly on motion inside |
| Buttons.InsideMeansCloser | thatcherizer.py:619-628 | for a real distance d whose square is the squared distance, as `math.hypot` returns it, the squared-distance tests for inside and outside agree with comparing d with the radius |
| Buttons.LastDownTracksHistory | thatcherizer.py:634-653 | across any event list, the remembered press state is that of the last press or release, or the initial one if there was none |
| Buttons.PressReleaseClicks | thatcherizer.py:612-666 | a press then a release inside a fresh button report [enter, down] then [up, click] |
| Features.New | thatcherizerTools.py:156-168 | a new feature shows its starting rectangle, anchored at its two corners, with no drag in progress |
| Features.HandleEvent | thatcherizerTools.py:170-190 | events outside the viewer box or not from the mouse change nothing; a first press starts a drag and hides the rectangle; motion during a drag moves the second anchor and shows it; a release ends the drag |
| Features.Normalize | thatcherizerTools.py:192-209 | the rectangle has non-negative size, and its edges are exactly the two anchors' coordinates |
| Features.NormalizeSymmetric | thatcherizerTools.py:192-209 | the rectangle does not depend on which anchor came first |
| Features.GetRect | thatcherizerTools.py:192-212 | while the rectangle is hidden the result is (0, 0, 0, 0) and nothing is stored; otherwise it is the normalised rectangle, which also becomes the current one |
| Features.NewThenGetRect | thatcherizerTools.py:156-212 | a feature started on a rectangle of non-negative size reports that same rectangle and stays as it was |
| Features.GetRectSwapInvariant | thatcherizerTools.py:192-209 | swapping the anchors does not change the reported rectangle |
| Features.PressGivesZeroRect | thatcherizerTools.py:175-212 | after a first press inside the viewer, and until some motion, the reported rectangle is (0, 0, 0, 0) |
| Features.DraggedRectInViewer | thatcherizerTools.py:175-209 | a rectangle between two anchors inside the viewer box lies inside the box |
| Features.AnchorsStayInViewer | thatcherizerTools.py:170-190 | anchors inside the viewer box stay inside it whatever events arrive |
| Detection.AdjustEye | thatcherizerTools.py:107-113 | an eye keeps the detection's x and width, takes the height the rule gives, and moves its top down by half the difference between the width and the new height, rounded down |
| Detection.DetectEyes | thatcherizerTools.py:94-126 | with no detections the eyes are the defaults (240, 155, 50, 30) and (345, 155, 50, 30) |
| Detection.DetectEyesLastWins | thatcherizerTools.py:106-123 | each eye is built from the last detection whose centre falls on its side (left when at or before the image centre), or is the default when there is none |
| Detection.SideHasLastOrNone | thatcherizerTools.py:106-123 | every side either has a last detection or none at all |
| Detection.DetectMouth | thatcherizerTools.py:128-151 | the mouth is the first detection whose top lies below the image centre, else the default (275, 255, 90, 60) |
| Images.FlipLR | thatcherizer.py:743 | column j of the mirrored image is column w-1-j of the original, and the size is kept |
| Images.Crop | thatcherizer.py:757 | the crop has the box's size, and pixels outside the source come out black |
| Images.Rotate180 | thatcherizer.py:799-800 | pixel (i, j) of the turned image is pixel (h-1-i, w-1-j) of the original |
| Images.Paste | thatcherizer.py:760 | pasting keeps the destination's size, and copies the source only where it overlaps |
| Images.FlipLRInvolution | thatcherizer.py:743-776 | mirroring twice gives back the image |
| Images.Rotate180Involution | thatcherizer.py:799-800 | turning twice by 180 degrees gives back the image |
| Compositor.InvertRegion | thatcherizer.py:747-760 | inverting one rectangle keeps the image's size and changes no pixel outside the rectangle |
| Compositor.InvertRegionInside | thatcherizer.py:754-760 | inside the rectangle, a fully opaque mask gives the row mirrored top to bottom, and a clear mask keeps the pixel |
| Compositor.ApplyRegionsOutside | thatcherizer.py:747-760 | applying all rectangles in turn changes no pixel that none of them covers |
| Compositor.Thatcherize | thatcherizer.py:736-776 | both returned images are 360 x 480, and each is the saved crop mirrored back |
| Compositor.ThatcherizeChangesOnlyRegions | thatcherizer.py:736-776 | the returned thatcherized image differs from the plain one only where some converted rectangle covers the pixel |
| Compositor.OrigIgnoresRegions | thatcherizer.py:743-776 | the plain output never depends on the rectangles |
| Compositor.OrigIsPlainCrop | thatcherizer.py:743-776 | on a 640 x 480 frame the two mirrorings cancel: the plain output is the frame's columns 140 to 499 |
| Compositor.RegionOrderMatters | thatcherizer.py:747-760 | two overlapping rectangles give different results in the two orders, so the order eyes then mouth matters |
| Numbering.ParseInt | thatcherizer.py:699 | Python's `int()` succeeds exactly when, once surrounding whitespace and an optional sign are removed, one or more digits and nothing else are left; the value is theirs, negated after '-'; a plain digit string gives its value and the empty string an error |
| Numbering.ParseIntOfLiteral | thatcherizer.py:699 | any whitespace, an optional '-' or '+', one or more digits and any whitespace again parse to the digits' value, negated after '-' |
| Numbering.ZFill | thatcherizer.py:699 | `zfill` returns a string as long as the width, or the original length when that is longer |
| Numbering.ZFillPadsAfterSign | thatcherizer.py:699 | `zfill` leaves a string at least as long as the width unchanged; a shorter one keeps its sign first, then gets exactly the missing number of zeros, then the rest of the string |
| Numbering.ParseZFillRoundTrip | thatcherizer.py:699 | `int(str(n).zfill(3))` gives back n for every integer n |
| Numbering.LexLessThreeDigits | thatcherizer.py:696 | for three-digit slices, Python's string order is the numeric order |
| Numbering.ZFillIsPad3 | thatcherizer.py:699 | below 1000, `str(v).zfill(3)` is the three-digit form of v |
| Numbering.MaxNumber | thatcherizer.py:689-699 | the reference definition: no matching stem has a larger number |
| Numbering.LastSliceIsMax | thatcherizer.py:689-699 | when every slice has three digits, the slice kept by the string comparison is the numeric maximum, and is absent exactly when no stem matches |
| Numbering.LastFileNumberIsMax | thatcherizer.py:689-699 | when every matching stem's `[4:7]` slice is three digits, `get_lastFileNumber` is the numeric maximum, zero-padded to three digits |
| Numbering.NextIsMaxPlusOne | thatcherizer.py:766-767 | when every matching stem's `[4:7]` slice is three digits, the next run's number is the maximum plus one, and below 1000 it has three digits |
| Numbering.SavedRunIsLast | thatcherizer.py:689-699 | when every matching stem's `[4:7]` slice is three digits and the run is below 1000, once a run's files are saved the lookup answers that run's number |
| Numbering.NextRunIsNew | thatcherizer.py:766-771 | when every matching stem's `[4:7]` slice is three digits and the next run is below 1000, the next run's file stems differ from every stem already in the directory |
| Numbering.NextAfterGap | thatcherizer.py:689-699 | with runs 001 and 003 on disk the next run is 004: numbers are not reused |
| Numbering.CompositeNumberAfter999 | thatcherizer.py:808 | after run 999 the next run is "1000", but once its files are saved the lookup answers "999" |
| Numbering.CompositeNumberAfterShortStem | thatcherizer.py:808 | after a file `img_5` the next run is "006", but once its files are saved the lookup answers "005" |
| PrintLayout.AssembleComposite | thatcherizer.py:778-811 | the composite keeps the template's size |
| PrintLayout.CompositeShowsOrig | thatcherizer.py:786-804 | the plain picture, scaled and cut to the box (40, 52, 680, 908), lands upright with its corner at (58, 172) |
| PrintLayout.CompositeShowsThatchTurned | thatcherizer.py:786-805 | the thatcherized picture, cut the same way, lands turned by 180 degrees with its corner at (1102, 172) |
| PrintLayout.CompositeKeepsTemplate | thatcherizer.py:802-805 | outside the two pasted areas the template shows through unchanged |
| App.MakeFeatures | thatcherizer.py:331-340 | accepting a photo gives three editors: left eye, right eye, mouth, in that order |
| App.FirstKill | thatcherizer.py:103-118 | the events handed to the screen are exactly those before the first quit or escape |
| App.Tick | thatcherizer.py:99-145 | once the loop has ended a tick changes nothing; a quit or escape anywhere in the tick's events ends the loop |
| AppProps.CountdownSchedule | thatcherizer.py:258-284 | the countdown shows 3, 2 and 1 for six updates each and reaches 0 after the 18th; the photo is taken on the 19th update and on no other |
| AppProps.FadeSchedule | thatcherizer.py:345-350 | the flash's alpha is 255 - 20n for the first 13 updates (ending at -5), then 0 for good |
| AppProps.FlipSchedule | thatcherizer.py:494-511 | a flip turns the pictures 30 degrees per update up to 180; on the 7th update the turned pictures become the reference and the animation stops |
| AppProps.TickPreservesWf | thatcherizer.py:99-145 | a tick keeps the screen invariant: countdown in 0..3 with the frame counter in 0..5 and a frame read before the count runs out; alpha in -19..255; feature index below 3; flip angle a multiple of 30 in 0..180 and 0 when still; print timer not negative |
| AppProps.ReachableScreensWf | thatcherizer.py:96-145 | every screen reachable from the intro satisfies that invariant |
| AppProps.UpdateFailsOnlyWithoutFrame | thatcherizer.py:185-557 | on a sound screen, `Update` raises only when the camera gives no frame, also when the same pass's input already asked for a switch; in particular the countdown never switches without a photo |
| AppProps.StoppedStaysStopped | thatcherizer.py:99 | once the loop has ended, further ticks change nothing |
| AppProps.RunGrows | thatcherizer.py:99-145 | over any run the files already there stay, and saves and prints are only appended |
| AppProps.OtherScreensKeepWorld | thatcherizer.py:179-549 | no screen except the feature editor writes files while handling events |
| AppProps.PhotoTakenOnTick19 | thatcherizer.py:258-284 | with frames present and no quit, the 19th tick of the countdown screen switches to confirmation with the frame read on the 18th |
| AppProps.CountdownTicks | thatcherizer.py:258-284 | for the first 18 ticks the countdown screen stays, with the counters of the schedule and the newest frame |
| AppProps.PrintsOnce | thatcherizer.py:551-557 | the print screen builds, saves and prints the composite exactly once, on its second update, named with the run's own number |
| AppProps.RunNumberAgreesBelow1000 | thatcherizer.py:766-818 | below 1000, the run's number equals the number the saved directory yields after the run's two saves |
| AppProps.LastNextSavesRun | thatcherizer.py:398-415 | whenever the next run number can be derived, the click that moves past the last feature saves exactly two files with that number, holding the saved crops of the photo thatcherized with the features' current rectangles, and the results screen shows those images mirrored back; the two stems are new when every matching slice is three digits and the run is below 1000 (otherwise the source may reuse one); no other event of that screen saves anything |
| AppProps.NextClickAdvances | thatcherizer.py:392-415 | on the feature screen a click moves the feature index on by one and any other event leaves it; the photo and the edited position are kept, only the edited feature sees the event, and the screen goes on unless the button fails or the last click's run number cannot be derived |
| AppProps.AdvanceFails | thatcherizer.py:398-411 | moving on fails exactly on the last click when the run number cannot be derived |
| AppProps.AcceptedFeaturesMapBack | thatcherizer.py:331-340 | an untouched feature's rectangle converts back to exactly what the detector found |

## Left out

- The camera thread (`PiCamStream`), `cv2` and the Haar classifiers: the frame of each tick and the detections are parameters.
- Detection.AdjustEye: the eye height `int(w / 1.7)` is computed in floating point, so the height rule is a parameter rather than the float division.
- Compositor.InvertRegion: PIL's mask resize and alpha blending round in ways not modelled, so the resized mask and the blend are parameters. The proofs assume only that an opaque mask copies the source and a clear one keeps the destination.
- Compositor.InvertRegion: PIL may reject a mask resized to zero width or height; the model lets such a rectangle cover nothing.
- PrintLayout.AssembleComposite: the resize to 720 x 960 is the `scale` parameter, and `rotate(180)` is taken as the exact pixel permutation.
- Numbering.NumberSlice: Python 2's `os.listdir` returns byte strings, so `fname[4:7]` slices bytes, while the model slices characters. For a non-ASCII name such as `imgé123.jpg` the source's slice holds part of the UTF-8 encoding of `é` and `int()` raises, but the model's slice is "123". File names are taken to be ASCII.
- Numbering.ParseInt: Python 2's `int()` also accepts whitespace between the sign and the digits (a slice such as "- 5"); the model reports an error there. Non-ASCII digits are not modelled.
- Render, fonts, colours and the random feature colour: nothing drawn is modelled, only the state drawing reads.
- File I/O: the output directory is a list of stems (directories already excluded), and a save appends a stem with its image.
- Printing: `printComposite` only announces the composite name, because its `lp` call is commented out in the source. `World.printed` records that name.
- Frame rate and the clock: a tick is one pass of the loop, whatever its timing.
- The pygame event queue: each tick's events are a parameter, in order.
- App.Update: the composite (thatcherizer.py:808) and the print job (thatcherizer.py:818) look the run number up again after the saves; the model uses the run number carried from the save instead (see Findings).
- App.Tick: an exception raised by `Render` is not modelled. The one that matters, after a quit, ends the loop exactly as the model's quit does.

## Findings

| source | as written | input that shows it | evidently intended | confidence | as-written member | corrected member |
|---|---|---|---|---|---|---|
| thatcherizer.py:808 | the composite (and the print job at thatcherizer.py:818) looks the run number up again from the directory after the run's files are saved | a directory holding only `img_999_orig`: the new run is saved as `img_1000_orig` and `img_1000_thatch`, whose slice "100" sorts below "999", so the composite is named `img_999_composite` and overwrites run 999's | the composite and the print job carry the number of the run they belong to | not executed | Numbering.CompositeNumberAfter999 | AppProps.PrintsOnce |
| thatcherizer.py:808 | the same re-lookup goes wrong without any overflow when an earlier file's number is not zero-padded | a directory holding only `img_5`: the new run is "006", but its slice "006" sorts below "5", so after the saves the lookup answers "005" and the composite is named `img_005_composite` | the composite and the print job carry the number of the run they belong to | not executed | Numbering.CompositeNumberAfterShortStem | AppProps.PrintsOnce |

The corrected model carries the run number from the save to the print screen
(`App.Results.run`), and `App.CompositeStem` names the composite with it.
`AppProps.RunNumberAgreesBelow1000` shows that this agrees with the source
whenever the run number stays below 1000 and every matching stem's `[4:7]`
slice is three digits.
