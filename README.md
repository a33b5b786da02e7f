# Detection overlay of the object-detection console (WPF window)

This project models the part of `ObjectConsole.Wpf/MainWindow.xaml.cs` that draws the
detector's bounding boxes over the previewed image, and proves properties of it.
The modelled parts are:

- converting the bitmap's pixel size to device-independent units (DIPs, 1/96 inch)
  using its recorded DPI;
- choosing the container: the overlay canvas's rendered size, else the preview
  control's, else the image's own size;
- fitting the image uniformly into the container and centring it;
- deciding, box by box, whether the four numbers are fractions of the image
  (every magnitude at most 1.01) or pixel positions;
- dropping boxes whose score is below the threshold, where a missing score counts
  as 1 and a missing or null label counts as the empty label;
- mapping each kept box to an outline at least 1 x 1 DIP, with a caption pinned at
  `max(0, top - 18)`;
- the per-label colour table (`GetBrushForLabel`);
- the cached last result that the confidence slider redraws from.

Modules, one file each:

- `options.dfy`: `Option` stands for C# references that may be null.
- `geometry.dfy`: DIP conversion, container choice, uniform fit (`Fit`, `Place`).
- `coordinates.dfy`: classification of a raw box and its conversion to image
  positions.
- `colors.dfy`: label colours and the colour table. The table is a map; a lookup
  is a pure function returning the colour and the new table.
- `overlay.dfy`: the specification of a drawing pass. `Render` is the list of
  canvas children (outline, then caption, for each kept box in index order).
  `Gather`, `Drawn` and `KeptIndices` give its structure.
- `window.dfy`: the class `MainWindow` with the state its methods update in place.
  That state is the canvas children, the colour table, the cached arrays, the
  shown bitmap, and the size the drawing code last asked the overlay to take.
  `DrawBoxes` is the loop of the source, proved equal to `Render`. The click and
  slider handlers are methods over that state.

The environment becomes parameters:

- The layout pass's rendered sizes are a `Layout` value.
- The colour that `Random(label.GetHashCode())` produces is a function
  `string -> LabelColor`. Only its range is known: every channel in [64, 224).
- The "0.0" percentage formatting is a function `real -> string`.
- The detector's output is an `Option<Prediction>`, where `None` means the
  prediction threw.

Opening an image clears only the canvas (line 107). It does not clear the cached
detection result. The model follows the code. `Window.SliderAfterNewImage` proves
the consequence: moving the slider after opening another image draws the previous
image's boxes over the new one.

## Model

| member | source | states |
|---|---|---|
| Geometry.EffectiveDpi | ObjectConsole.Wpf/MainWindow.xaml.cs:223-224 | the resolution used is the recorded DPI when that is positive, otherwise 96 |
| Geometry.ToDips | ObjectConsole.Wpf/MainWindow.xaml.cs:223-224 | a positive pixel count gives a positive length in DIPs; at 96 DPI or with no recorded DPI the DIP length equals the pixel count |
| Geometry.DipsAreInches | ObjectConsole.Wpf/MainWindow.xaml.cs:222-224 | the DIP length times the resolution is the pixel count times 96, i.e. DIPs measure 1/96 inch |
| Geometry.ImageSize | ObjectConsole.Wpf/MainWindow.xaml.cs:222-224 | a decoded bitmap has a positive size in DIPs |
| Geometry.ImageSizePerAxis | ObjectConsole.Wpf/MainWindow.xaml.cs:223-224 | the width is converted with the horizontal DPI and the height with the vertical DPI: each DIP length times the DPI used equals its pixel count times 96 |
| Geometry.Container | ObjectConsole.Wpf/MainWindow.xaml.cs:226-236 | the overlay's rendered size when positive; per dimension the preview's otherwise; the image's own size when either dimension is still not positive (before layout); positive whenever the image is |
| Geometry.Fit | ObjectConsole.Wpf/MainWindow.xaml.cs:237-242 | uniform fit has a positive scale and non-negative offsets |
| Geometry.FitFills | ObjectConsole.Wpf/MainWindow.xaml.cs:238-240 | the scaled image fits inside the container and touches it on at least one side |
| Geometry.FitCentres | ObjectConsole.Wpf/MainWindow.xaml.cs:238-242 | the fitted image fits, touches one side, and leaves equal margins left and right, top and bottom |
| Geometry.FitIsLargest | ObjectConsole.Wpf/MainWindow.xaml.cs:238 | no larger scale keeps the whole image inside the container |
| Geometry.Place | ObjectConsole.Wpf/MainWindow.xaml.cs:222-242 | the placement of a decoded bitmap has a positive scale and non-negative offsets; the scaled image fits inside the chosen container, touches it on one side and is centred in it; before layout it draws at scale 1 from the origin |
| Geometry.FitOwnSize | ObjectConsole.Wpf/MainWindow.xaml.cs:229-242 | an image fitted into a container of its own size is unscaled and not offset |
| Geometry.FitExample | ObjectConsole.Wpf/MainWindow.xaml.cs:237-242 | a 200 x 100 image in a 100 x 100 container gets scale 0.5 and offsets (0, 25) |
| Coordinates.Classify | ObjectConsole.Wpf/MainWindow.xaml.cs:256-257 | a box is normalised exactly when all four numbers lie within [-1.01, 1.01] |
| Coordinates.ToImage | ObjectConsole.Wpf/MainWindow.xaml.cs:259-262 | a box in pixels passes through unchanged |
| Coordinates.OrientationKept | ObjectConsole.Wpf/MainWindow.xaml.cs:259-262 | in both conventions a corner left of (above) the other stays so after conversion, and an inverted box stays inverted |
| Coordinates.NormalizedFractions | ObjectConsole.Wpf/MainWindow.xaml.cs:259-262 | a normalised box converts to positions whose ratio to the image side is the original fraction |
| Coordinates.NormalizedWithinImage | ObjectConsole.Wpf/MainWindow.xaml.cs:256-262 | every position of a normalised box lies within 1.01 image widths (heights) of the origin |
| Coordinates.ExampleBoxes | ObjectConsole.Wpf/MainWindow.xaml.cs:256-262 | (0.1, 0.2, 0.5, 0.6) on a 200 x 100 image becomes (20, 20, 100, 60); (20, 20, 100, 60) is kept as pixels |
| Colors.ColorFor | ObjectConsole.Wpf/MainWindow.xaml.cs:303-307 | red exactly for the empty label; any other label gets its hash colour, every channel in [64, 224) |
| Colors.Lookup | ObjectConsole.Wpf/MainWindow.xaml.cs:301-311 | empty label: red and table unchanged; stored label: its stored colour and table unchanged; new label: its in-band colour, added under that label; old entries never change; a consistent table stays consistent and yields `ColorFor` |
| Colors.LookupAllGrows | ObjectConsole.Wpf/MainWindow.xaml.cs:270-271 | after a run of lookups the table holds its old entries unchanged plus exactly the non-empty labels looked up, and stays consistent with the hash |
| Overlay.BoxCount | ObjectConsole.Wpf/MainWindow.xaml.cs:244 | the number of whole groups of four: 4n <= length < 4n + 4 |
| Overlay.ScreenRect | ObjectConsole.Wpf/MainWindow.xaml.cs:264-267 | outline width and height are at least 1, and exactly 1 for an empty or inverted extent |
| Overlay.ScreenRectClamp | ObjectConsole.Wpf/MainWindow.xaml.cs:264-267 | left/top are offset plus scaled position; width/height are the scaled extent whenever that is at least 1, exactly 1 whenever it is at most 1, and never less than it |
| Overlay.CaptionTop | ObjectConsole.Wpf/MainWindow.xaml.cs:296 | the caption is never above the canvas, is never more than 18 above the box, and sits either at 0 or exactly 18 above |
| Overlay.CaptionText | ObjectConsole.Wpf/MainWindow.xaml.cs:289 | the text ends in '%'; without a label it is the formatted percentage; with one it is the label, a space and the formatted percentage |
| Overlay.BoxPrimitives | ObjectConsole.Wpf/MainWindow.xaml.cs:264-297 | one box gives an outline then a caption, both in the label's colour, the outline at least 1 x 1, the caption at the outline's left and between 18 above it and the canvas top |
| Overlay.DrawKept | ObjectConsole.Wpf/MainWindow.xaml.cs:247-297 | a kept box appends its outline and then its caption, in its label's colour, and its label is asked for a colour |
| Overlay.DrawSkipped | ObjectConsole.Wpf/MainWindow.xaml.cs:253-254 | a box below the threshold adds nothing and asks for no colour |
| Overlay.KeptLabelsOfIndices | ObjectConsole.Wpf/MainWindow.xaml.cs:245-271 | the labels asked for a colour are exactly the labels of the kept boxes, one per kept index, in index order |
| Overlay.Render | ObjectConsole.Wpf/MainWindow.xaml.cs:213-221 | with no bitmap shown the canvas is left empty; otherwise it holds two children per kept box |
| Overlay.DrawLength | ObjectConsole.Wpf/MainWindow.xaml.cs:244-297 | the canvas holds exactly two children per box that passes the threshold |
| Overlay.GatherLength | ObjectConsole.Wpf/MainWindow.xaml.cs:245-254 | filtering items of two children each gives two children per kept index |
| Overlay.KeptIndicesSpec | ObjectConsole.Wpf/MainWindow.xaml.cs:244-254 | box i is drawn exactly when i < box count and its score (1 when missing) is not below the threshold; the drawn boxes come in ascending index order |
| Overlay.GatherShape | ObjectConsole.Wpf/MainWindow.xaml.cs:245-254 | the filtering loop yields the items of the kept indices, in index order |
| Overlay.DrawShape | ObjectConsole.Wpf/MainWindow.xaml.cs:245-298 | the canvas is the outline and caption of every kept box, box after box in index order, and nothing else |
| Overlay.DrawVisible | ObjectConsole.Wpf/MainWindow.xaml.cs:266-267 | every outline on the canvas is at least 1 x 1 and no caption is above the canvas top |
| Overlay.GatherKeeps | ObjectConsole.Wpf/MainWindow.xaml.cs:245-254 | filtering keeps any property that every item has |
| Overlay.GatherSame | ObjectConsole.Wpf/MainWindow.xaml.cs:245-254 | filtering depends on the items only at indices below the box count |
| Overlay.ThresholdMonotone | ObjectConsole.Wpf/MainWindow.xaml.cs:254 | raising the threshold only removes boxes |
| Overlay.TrailingIgnored | ObjectConsole.Wpf/MainWindow.xaml.cs:244-251 | numbers after the last whole group of four change nothing on the canvas |
| Overlay.SameLabelsSameDraw | ObjectConsole.Wpf/MainWindow.xaml.cs:270 | the canvas and the labels asked for depend on the label array only through the label each box gets |
| Overlay.SameLabelsSameKept | ObjectConsole.Wpf/MainWindow.xaml.cs:270 | the labels asked for depend on the label array only through the label each box gets |
| Overlay.ExampleFilterOrder | ObjectConsole.Wpf/MainWindow.xaml.cs:245-254 | scores 0.2, 0.9, 0.5 at threshold 0.4 draw boxes 1 and 2, in index order |
| Overlay.UnitBoxOnImage | ObjectConsole.Wpf/MainWindow.xaml.cs:257-265 | a box given as fractions in [0, 1] has its top-left corner on the image as shown |
| Overlay.CornerOnImage | ObjectConsole.Wpf/MainWindow.xaml.cs:257-260 | fractions in [0, 1] give a corner inside the natural image |
| Overlay.CornerOnView | ObjectConsole.Wpf/MainWindow.xaml.cs:264-265 | a corner inside the natural image lands inside the scaled image on the canvas |
| Overlay.UnitBoxOnCanvas | ObjectConsole.Wpf/MainWindow.xaml.cs:238-265 | with uniform fit, such a corner lies inside the container |
| Overlay.ExamplePlacement | ObjectConsole.Wpf/MainWindow.xaml.cs:222-242 | a 400 x 300 bitmap at 96 DPI in a 200 x 150 overlay is halved and not offset |
| Overlay.ExampleRect | ObjectConsole.Wpf/MainWindow.xaml.cs:256-267 | the box (0, 0, 0.5, 0.5) on that placement becomes a 100 x 75 outline at the origin |
| Overlay.ExampleCaption | ObjectConsole.Wpf/MainWindow.xaml.cs:289 | label "dog" at score 0.8 is captioned "dog " + the formatted 80 + "%" |
| Overlay.ExampleDraw | ObjectConsole.Wpf/MainWindow.xaml.cs:245-297 | that single box gives the outline and the caption pinned to the canvas top, both in the colour of "dog" |
| Overlay.ExampleDog | ObjectConsole.Wpf/MainWindow.xaml.cs:213-297 | the whole drawing pass for that example gives exactly those two children |
| Window.AbsentLabelsDrawAsEmpty | ObjectConsole.Wpf/MainWindow.xaml.cs:88 | passing null instead of an empty cached label array draws the same canvas and asks for the same colours |
| Window.MainWindow.constructor | ObjectConsole.Wpf/MainWindow.xaml.cs:36-41 | a new window has an empty colour table, empty cached arrays, no image and an empty canvas |
| Window.MainWindow.GetBrushForLabel | ObjectConsole.Wpf/MainWindow.xaml.cs:301-312 | returns and records the colour exactly as `Lookup` does, which is `ColorFor`, and keeps the table consistent |
| Window.MainWindow.DrawBoxes | ObjectConsole.Wpf/MainWindow.xaml.cs:213-298 | the canvas becomes `Render` of the arrays; the colour table becomes the old one after looking up the labels of the kept boxes in order; the overlay is asked to take the image size exactly when the container fell back to it |
| Window.MainWindow.OpenImage | ObjectConsole.Wpf/MainWindow.xaml.cs:99-108 | the new bitmap is shown and the canvas is cleared; the cached result is kept |
| Window.MainWindow.DetectButtonClick | ObjectConsole.Wpf/MainWindow.xaml.cs:136-206 | with an image open and at least 4 box numbers and 1 score, the result (null arrays read as empty) is cached and drawn at the slider's value or 0.3, the colour table grows by the labels of the kept boxes as in `DrawBoxes`, and the overlay is asked to take the image size exactly when layout has not run; otherwise nothing changes |
| Window.MainWindow.ConfidenceSliderChanged | ObjectConsole.Wpf/MainWindow.xaml.cs:81-90 | with a usable cached result the canvas becomes `Render` of it at the new threshold and, when a bitmap is shown, the colour table grows by the labels of the kept boxes and the overlay is asked to take the image size exactly when layout has not run; otherwise nothing changes |
| Window.SliderRedrawsDetection | ObjectConsole.Wpf/MainWindow.xaml.cs:179-197 | moving the slider to the threshold a detection was drawn at redraws exactly the same canvas |
| Window.SliderAfterNewImage | ObjectConsole.Wpf/MainWindow.xaml.cs:81-108 | after another image is opened, the slider draws the previous result over the new image |

## Left out

- Window layout is not modelled: `EnsureOverlayMatchesImage` (lines 65-79) and the deferred sizing in `LoadPreview` (lines 111-134, including the MaxWidth/MaxHeight clamp). Their effect reaches the model only through the `Layout` value that each drawing pass is given.
- The early returns for a missing overlay canvas or preview control (lines 216-217, 220) are left out; the controls are assumed present. A preview without a bitmap (line 221) is modelled as `preview == None`.
- The "Open an image first" check (lines 140-144) is modelled as "no bitmap shown"; the message boxes are not modelled.
- The detector (`MLModel1.Predict`, lines 147-154) is not modelled. Its output is a parameter, and `None` stands for a thrown exception, after which nothing changes. Exceptions from anywhere else are not modelled. ModelLoader.cs is not part of this model.
- File I/O: the file dialog, the file bytes and the image path (lines 94-104) are left out.
- UI text is left out: the status line, output and summary text boxes, the prediction list box (lines 156-177, 186-196) and the slider's value label (line 83).
- Styling is left out: stroke thickness, corner radius, yellow caption foreground, font size and padding (lines 273-294).
- Numbers are exact reals, not IEEE floats or doubles. The `(float)` casts of the threshold (lines 88, 197) and float rounding of the products are not modelled.
- Overlay.CaptionText: the "0.0" percentage formatting is a parameter, so the caption's digits are not modelled.
- Colors.ColorFor: the random generator seeded with the label's hash is a parameter. Only its range [64, 224) per channel is modelled, and it is taken to be the same for the whole session.
- Geometry.ImageSize: a bitmap is assumed to have at least one pixel in each direction, as any decoded image does.
- Window.MainWindow.DetectButtonClick: whether an image is open is read from the shown bitmap, not from the stored image path.
