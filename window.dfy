/**
 * The main window's overlay state: the canvas the boxes are drawn on, the
 * table of label colours, and the last detection result, kept so that
 * moving the confidence slider redraws without running the detector again.
 */
module Window {
  import opened Options
  import opened Geometry
  import opened Coordinates
  import opened Colors
  import opened Overlay

  /** What the detector returned; each array may be null. */
  datatype Prediction = Prediction(boxes: Option<seq<real>>, scores: Option<seq<real>>,
                                   labels: Option<seq<Option<string>>>)

  /** The threshold used when the window has no slider. */
  const DefaultThreshold: real := 0.3

  /** A result is kept and drawn only when it has at least one box and one score. */
  predicate Usable(boxes: seq<real>, scores: seq<real>)
  {
    |boxes| >= 4 && |scores| >= 1
  }

  /** The arrays of a prediction, with null arrays read as empty. */
  function Arrays(p: Prediction): Detections
  {
    Detections(GetOr(p.boxes, []), GetOr(p.scores, []), Some(GetOr(p.labels, [])))
  }

  /** The detection result the slider redraws from. */
  function Cached(boxes: seq<real>, scores: seq<real>, labels: seq<Option<string>>): Detections
  {
    Detections(boxes, scores, Some(labels))
  }

  /** An absent label array draws exactly like an empty one, so the slider's
      substitution of null for an empty cached array changes nothing. */
  lemma AbsentLabelsDrawAsEmpty(d: Detections, threshold: real, source: Option<Bitmap>, layout: Layout,
                                hash: string -> LabelColor, format: real -> string)
    requires source.Some? ==> Decoded(source.value)
    requires d.labels == Some([])
    ensures Render(d.(labels := None), threshold, source, layout, hash, format) ==
            Render(d, threshold, source, layout, hash, format)
    ensures KeptLabels(d.(labels := None), threshold, BoxCount(d.boxes)) == KeptLabels(d, threshold, BoxCount(d.boxes))
  {
    var n := BoxCount(d.boxes);
    assert forall i :: 0 <= i < n ==> LabelAt(None, i) == LabelAt(d.labels, i);
    if source.Some? {
      var b := source.value;
      SameLabelsSameDraw(d, None, threshold, ImageSize(b), Place(b, layout), hash, format, n);
    } else {
      SameLabelsSameDraw(d, None, threshold, Size(1.0, 1.0), View(1.0, 0.0, 0.0), hash, format, n);
    }
  }

  class MainWindow {
    /** The colour the seeded generator gives a label's hash (fixed for the session). */
    const hashColor: string -> LabelColor
    /** How a percentage is printed with one decimal. */
    const formatPercent: real -> string

    /** Label colours handed out so far. */
    var labelBrushes: map<string, Color>
    /** The last usable detection result. */
    var lastBoxes: seq<real>
    var lastScores: seq<real>
    var lastLabels: seq<Option<string>>
    /** The bitmap shown in the preview, if any. */
    var preview: Option<Bitmap>
    /** The children of the overlay canvas, in drawing order. */
    var canvas: seq<Primitive>
    /** The size last requested for the overlay canvas by the drawing code. */
    var overlayRequest: Option<Size>

    ghost predicate Valid()
      reads this
    {
      Memo(labelBrushes, hashColor) && (preview.Some? ==> Decoded(preview.value))
    }

    constructor (hashColor: string -> LabelColor, formatPercent: real -> string)
      ensures Valid()
      ensures this.hashColor == hashColor && this.formatPercent == formatPercent
      ensures labelBrushes == map[] && lastBoxes == [] && lastScores == [] && lastLabels == []
      ensures preview == None && canvas == [] && overlayRequest == None
    {
      this.hashColor := hashColor;
      this.formatPercent := formatPercent;
      labelBrushes := map[];
      lastBoxes, lastScores, lastLabels := [], [], [];
      preview := None;
      canvas := [];
      overlayRequest := None;
    }

    /** The colour for a label, taken from the table or added to it. */
    method GetBrushForLabel(name: string) returns (c: Color)
      requires Valid()
      modifies this`labelBrushes
      ensures Valid()
      ensures (c, labelBrushes) == Lookup(old(labelBrushes), hashColor, name)
      ensures c == ColorFor(hashColor, name)
    {
      if name == "" {
        return Red;
      }
      if name in labelBrushes {
        return labelBrushes[name];
      }
      c := hashColor(name);
      labelBrushes := labelBrushes[name := c];
    }

    /** Clear the canvas and draw every box whose score reaches the threshold
        over the preview. */
    method DrawBoxes(boxes: seq<real>, scores: seq<real>, threshold: real,
                     labels: Option<seq<Option<string>>>, layout: Layout)
      requires Valid()
      modifies this`canvas, this`labelBrushes, this`overlayRequest
      ensures Valid()
      ensures canvas == Render(Detections(boxes, scores, labels), threshold, preview, layout,
                               hashColor, formatPercent)
      ensures labelBrushes ==
        if preview.None? then old(labelBrushes)
        else LookupAll(old(labelBrushes), hashColor,
                       KeptLabels(Detections(boxes, scores, labels), threshold, BoxCount(boxes)))
      ensures overlayRequest ==
        if preview.Some? && Unlaid(layout) then Some(ImageSize(preview.value)) else old(overlayRequest)
    {
      canvas := [];
      if preview.None? {
        return;
      }
      var bmp := preview.value;
      var image := ImageSize(bmp);
      if Unlaid(layout) {
        overlayRequest := Some(image);
      }
      var v := Place(bmp, layout);
      ghost var d := Detections(boxes, scores, labels);
      ghost var table0 := labelBrushes;
      var count := BoxCount(boxes);
      for i := 0 to count
        invariant Valid()
        invariant canvas == Draw(d, threshold, image, v, hashColor, formatPercent, i)
        invariant labelBrushes == LookupAll(table0, hashColor, KeptLabels(d, threshold, i))
        invariant overlayRequest == if Unlaid(layout) then Some(image) else old(overlayRequest)
      {
        var baseIdx := 4 * i;
        var raw := RawBox(boxes[baseIdx], boxes[baseIdx + 1], boxes[baseIdx + 2], boxes[baseIdx + 3]);
        var score := if i < |scores| then scores[i] else 1.0;
        assert raw == RawBoxAt(boxes, i) && score == ScoreAt(scores, i);
        if score < threshold {
          DrawSkipped(d, threshold, image, v, hashColor, formatPercent, i);
          continue;
        }
        var r := ScreenRect(v, ToImage(raw, image));
        var name := LabelAt(labels, i);
        DrawKept(d, threshold, image, v, hashColor, formatPercent, i, r, name, score);
        LookupAllSnoc(table0, hashColor, KeptLabels(d, threshold, i), name);
        var brush := GetBrushForLabel(name);
        canvas := canvas + [Outline(r.left, r.top, r.width, r.height, brush)];
        canvas := canvas + [Caption(r.left, CaptionTop(r.top), CaptionText(name, score, formatPercent), brush)];
      }
    }

    /** A new image is shown: the canvas is cleared; the last detection
        result is kept. */
    method OpenImage(b: Bitmap)
      requires Valid() && Decoded(b)
      modifies this`preview, this`canvas
      ensures Valid()
      ensures preview == Some(b) && canvas == []
      ensures lastBoxes == old(lastBoxes) && lastScores == old(lastScores) && lastLabels == old(lastLabels)
    {
      preview := Some(b);
      canvas := [];
    }

    /** The detect button: with an image shown and a usable prediction, keep
        the result and draw it at the slider's threshold; otherwise change
        nothing. `output` is None when the detector failed. */
    method DetectButtonClick(output: Option<Prediction>, slider: Option<real>, layout: Layout)
      requires Valid()
      modifies this`lastBoxes, this`lastScores, this`lastLabels, this`canvas, this`labelBrushes, this`overlayRequest
      ensures Valid()
      ensures var accepted := preview.Some? && output.Some? &&
                              Usable(Arrays(output.value).boxes, Arrays(output.value).scores);
        if accepted then
          Cached(lastBoxes, lastScores, lastLabels) == Arrays(output.value) &&
          canvas == Render(Arrays(output.value), GetOr(slider, DefaultThreshold), preview, layout,
                           hashColor, formatPercent) &&
          labelBrushes == LookupAll(old(labelBrushes), hashColor,
                                    KeptLabels(Arrays(output.value), GetOr(slider, DefaultThreshold),
                                               BoxCount(Arrays(output.value).boxes))) &&
          overlayRequest == if Unlaid(layout) then Some(ImageSize(preview.value)) else old(overlayRequest)
        else
          lastBoxes == old(lastBoxes) && lastScores == old(lastScores) && lastLabels == old(lastLabels) &&
          canvas == old(canvas) && labelBrushes == old(labelBrushes) && overlayRequest == old(overlayRequest)
    {
      if preview.None? || output.None? {
        return;
      }
      var d := Arrays(output.value);
      if |d.boxes| >= 4 && |d.scores| >= 1 {
        var threshold := GetOr(slider, DefaultThreshold);
        lastBoxes := d.boxes;
        lastScores := d.scores;
        lastLabels := d.labels.value;
        DrawBoxes(d.boxes, d.scores, threshold, d.labels, layout);
      }
    }

    /** The confidence slider moved: redraw the last result at the new
        threshold, if there is one. */
    method ConfidenceSliderChanged(threshold: real, layout: Layout)
      requires Valid()
      modifies this`canvas, this`labelBrushes, this`overlayRequest
      ensures Valid()
      ensures if Usable(lastBoxes, lastScores) then
          canvas == Render(Cached(lastBoxes, lastScores, lastLabels), threshold, preview, layout,
                           hashColor, formatPercent) &&
          labelBrushes == (if preview.None? then old(labelBrushes)
                           else LookupAll(old(labelBrushes), hashColor,
                                          KeptLabels(Cached(lastBoxes, lastScores, lastLabels), threshold,
                                                     BoxCount(lastBoxes)))) &&
          overlayRequest == if preview.Some? && Unlaid(layout) then Some(ImageSize(preview.value))
                            else old(overlayRequest)
        else
          canvas == old(canvas) && labelBrushes == old(labelBrushes) && overlayRequest == old(overlayRequest)
    {
      if |lastBoxes| >= 4 && |lastScores| >= 1 {
        DrawBoxes(lastBoxes, lastScores, threshold, if |lastLabels| > 0 then Some(lastLabels) else None, layout);
        if |lastLabels| == 0 {
          AbsentLabelsDrawAsEmpty(Cached(lastBoxes, lastScores, lastLabels), threshold, preview, layout,
                                  hashColor, formatPercent);
        }
      }
    }
  }

  /** Moving the slider to the threshold a detection was drawn at redraws
      exactly the same overlay, although the colour table has meanwhile
      been filled. */
  method SliderRedrawsDetection(hash: string -> LabelColor, format: real -> string, b: Bitmap,
                                output: Prediction, threshold: real, layout: Layout)
    returns (detected: seq<Primitive>, redrawn: seq<Primitive>)
    requires Decoded(b) && Usable(Arrays(output).boxes, Arrays(output).scores)
    ensures detected == Render(Arrays(output), threshold, Some(b), layout, hash, format)
    ensures redrawn == detected
  {
    var w := new MainWindow(hash, format);
    w.OpenImage(b);
    w.DetectButtonClick(Some(output), Some(threshold), layout);
    detected := w.canvas;
    w.ConfidenceSliderChanged(threshold, layout);
    redrawn := w.canvas;
  }

  /** Opening another image does not forget the last result: moving the
      slider then draws the earlier image's boxes over the new image. */
  method SliderAfterNewImage(hash: string -> LabelColor, format: real -> string, first: Bitmap,
                             output: Prediction, second: Bitmap, threshold: real, layout: Layout)
    returns (shown: seq<Primitive>)
    requires Decoded(first) && Decoded(second) && Usable(Arrays(output).boxes, Arrays(output).scores)
    ensures shown == Render(Arrays(output), threshold, Some(second), layout, hash, format)
  {
    var w := new MainWindow(hash, format);
    w.OpenImage(first);
    w.DetectButtonClick(Some(output), Some(DefaultThreshold), layout);
    w.OpenImage(second);
    w.ConfidenceSliderChanged(threshold, layout);
    shown := w.canvas;
  }
}
