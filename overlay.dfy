/**
 * The overlay drawn over the preview: the boxes of one detection run whose
 * score reaches the threshold, each mapped to the screen as an outline with
 * a caption just above it, in the order the detector reported them.
 */
module Overlay {
  import opened Options
  import opened Geometry
  import opened Coordinates
  import opened Colors

  /** One detection run as the window passes it around: the flat box array
      (four numbers per box), the scores, and the label array, which may be
      absent and whose entries may be null. */
  datatype Detections = Detections(boxes: seq<real>, scores: seq<real>, labels: Option<seq<Option<string>>>)

  /** A screen rectangle in canvas DIPs. */
  datatype Rect = Rect(left: real, top: real, width: real, height: real)

  /** What the overlay canvas holds: the outline of a box, or its caption. */
  datatype Primitive =
    | Outline(left: real, top: real, width: real, height: real, stroke: Color)
    | Caption(left: real, top: real, text: string, background: Color)

  /** How far above its box a caption is placed. */
  const CaptionRise: real := 18.0

  function Max(a: real, b: real): real
  {
    if a >= b then a else b
  }

  /** The number of whole boxes in the flat array; numbers left over after
      the last group of four are not a box. */
  function BoxCount(boxes: seq<real>): (n: nat)
    ensures 4 * n <= |boxes| < 4 * n + 4
  {
    |boxes| / 4
  }

  /** Box i: numbers 4i to 4i+3 of the flat array. */
  function RawBoxAt(boxes: seq<real>, i: nat): RawBox
    requires i < BoxCount(boxes)
  {
    RawBox(boxes[4 * i], boxes[4 * i + 1], boxes[4 * i + 2], boxes[4 * i + 3])
  }

  /** The score of box i; a box without a score counts as certain. */
  function ScoreAt(scores: seq<real>, i: nat): real
  {
    if i < |scores| then scores[i] else 1.0
  }

  /** The label of box i; an absent array, a missing entry and a null entry
      all give the empty label. */
  function LabelAt(labels: Option<seq<Option<string>>>, i: nat): string
  {
    match labels
    case None => ""
    case Some(ls) => if i < |ls| then GetOr(ls[i], "") else ""
  }

  /** Box i is drawn unless its score is below the threshold. */
  predicate Kept(scores: seq<real>, threshold: real, i: nat)
  {
    !(ScoreAt(scores, i) < threshold)
  }

  /** A non-positive length times a positive scale is not positive. */
  lemma ScaledNonPositive(d: real, k: real, dk: real)
    requires k > 0.0 && dk == d * k
    ensures d <= 0.0 ==> dk <= 0.0
  {
    if d <= 0.0 {
      assert (-d) * k >= 0.0;
    }
  }

  /** A box on the image mapped onto the canvas. Width and height are never
      below 1, so a zero-area or inverted box is still visible. */
  function ScreenRect(v: View, p: Box): (r: Rect)
    requires v.scale > 0.0
    ensures r.width >= 1.0 && r.height >= 1.0
    ensures p.right <= p.left ==> r.width == 1.0
    ensures p.bottom <= p.top ==> r.height == 1.0
  {
    var w := (p.right - p.left) * v.scale;
    var h := (p.bottom - p.top) * v.scale;
    ScaledNonPositive(p.right - p.left, v.scale, w);
    ScaledNonPositive(p.bottom - p.top, v.scale, h);
    Rect(v.offsetX + p.left * v.scale, v.offsetY + p.top * v.scale, Max(1.0, w), Max(1.0, h))
  }

  /** The outline is the scaled box, widened to 1 only where the scaled
      box is narrower (or lower) than that. */
  lemma ScreenRectClamp(v: View, p: Box)
    requires v.scale > 0.0
    ensures var r := ScreenRect(v, p);
      var w, h := (p.right - p.left) * v.scale, (p.bottom - p.top) * v.scale;
      r.left == v.offsetX + p.left * v.scale && r.top == v.offsetY + p.top * v.scale &&
      r.width >= w && r.height >= h &&
      (w >= 1.0 ==> r.width == w) && (h >= 1.0 ==> r.height == h) &&
      (w <= 1.0 ==> r.width == 1.0) && (h <= 1.0 ==> r.height == 1.0)
  {
    var r := ScreenRect(v, p);
    var w, h := (p.right - p.left) * v.scale, (p.bottom - p.top) * v.scale;
    assert r.width == Max(1.0, w) && r.height == Max(1.0, h);
  }

  /** Where a caption goes: a fixed distance above its box, but never above
      the top of the canvas. */
  function CaptionTop(top: real): (y: real)
    ensures y >= 0.0 && y >= top - CaptionRise
    ensures y == 0.0 || y == top - CaptionRise
  {
    Max(0.0, top - CaptionRise)
  }

  /** The caption text: the label, a space and the score as a percentage, or
      the percentage alone for an unlabelled box. How the percentage is
      printed (one decimal, current culture) is the parameter `format`. */
  function CaptionText(name: string, score: real, format: real -> string): (t: string)
    ensures |t| > 0 && t[|t| - 1] == '%'
    ensures name == "" ==> t == format(score * 100.0) + "%"
    ensures name != "" ==> |t| > |name| + 1 && t[..|name|] == name && t[|name|] == ' ' &&
                           t[|name| + 1..] == format(score * 100.0) + "%"
  {
    var percent := format(score * 100.0) + "%";
    if |name| > 0 then name + " " + percent else percent
  }

  /** The outline and the caption of box i, both in the label's colour. */
  function BoxPrimitives(d: Detections, i: nat, image: Size, v: View,
                         hash: string -> LabelColor, format: real -> string): (ps: seq<Primitive>)
    requires i < BoxCount(d.boxes) && v.scale > 0.0
    ensures |ps| == 2 && ps[0].Outline? && ps[1].Caption?
    ensures ps[0].stroke == ps[1].background == ColorFor(hash, LabelAt(d.labels, i))
    ensures ps[0].width >= 1.0 && ps[0].height >= 1.0
    ensures ps[1].left == ps[0].left
    ensures ps[1].top >= 0.0 && ps[0].top - CaptionRise <= ps[1].top <= Max(0.0, ps[0].top)
  {
    var r := ScreenRect(v, ToImage(RawBoxAt(d.boxes, i), image));
    var name := LabelAt(d.labels, i);
    var color := ColorFor(hash, name);
    [Outline(r.left, r.top, r.width, r.height, color),
     Caption(r.left, CaptionTop(r.top), CaptionText(name, ScoreAt(d.scores, i), format), color)]
  }

  /** The primitives of box i as a function of i; nothing for an index past
      the last whole box. */
  function PerBox(d: Detections, image: Size, v: View,
                  hash: string -> LabelColor, format: real -> string): nat -> seq<Primitive>
    requires v.scale > 0.0
  {
    (i: nat) => if i < BoxCount(d.boxes) then BoxPrimitives(d, i, image, v, hash, format) else []
  }

  /** What f gives for each of the first n indices whose score reaches the
      threshold, one after the other. */
  function Gather(f: nat -> seq<Primitive>, scores: seq<real>, threshold: real, n: nat): seq<Primitive>
  {
    if n == 0 then []
    else Gather(f, scores, threshold, n - 1) + (if Kept(scores, threshold, n - 1) then f(n - 1) else [])
  }

  /** The canvas after the first n boxes have been considered. */
  function Draw(d: Detections, threshold: real, image: Size, v: View,
                hash: string -> LabelColor, format: real -> string, n: nat): seq<Primitive>
    requires n <= BoxCount(d.boxes) && v.scale > 0.0
  {
    Gather(PerBox(d, image, v, hash, format), d.scores, threshold, n)
  }

  /** One more box considered and kept: its outline and caption, in the
      label's colour, are appended, and its label is asked for a colour. */
  lemma DrawKept(d: Detections, threshold: real, image: Size, v: View,
                 hash: string -> LabelColor, format: real -> string, i: nat,
                 r: Rect, name: string, score: real)
    requires i < BoxCount(d.boxes) && v.scale > 0.0
    requires r == ScreenRect(v, ToImage(RawBoxAt(d.boxes, i), image))
    requires name == LabelAt(d.labels, i) && score == ScoreAt(d.scores, i)
    requires Kept(d.scores, threshold, i)
    ensures Draw(d, threshold, image, v, hash, format, i + 1) ==
      Draw(d, threshold, image, v, hash, format, i) +
      [Outline(r.left, r.top, r.width, r.height, ColorFor(hash, name))] +
      [Caption(r.left, CaptionTop(r.top), CaptionText(name, score, format), ColorFor(hash, name))]
    ensures KeptLabels(d, threshold, i + 1) == KeptLabels(d, threshold, i) + [name]
  {
    assert PerBox(d, image, v, hash, format)(i) == BoxPrimitives(d, i, image, v, hash, format);
  }

  /** One more box considered and skipped: nothing changes. */
  lemma DrawSkipped(d: Detections, threshold: real, image: Size, v: View,
                    hash: string -> LabelColor, format: real -> string, i: nat)
    requires i < BoxCount(d.boxes) && v.scale > 0.0
    requires !Kept(d.scores, threshold, i)
    ensures Draw(d, threshold, image, v, hash, format, i + 1) == Draw(d, threshold, image, v, hash, format, i)
    ensures KeptLabels(d, threshold, i + 1) == KeptLabels(d, threshold, i)
  {
  }

  /** The indices among the first n whose boxes are drawn, in order. */
  function KeptIndices(scores: seq<real>, threshold: real, n: nat): seq<nat>
  {
    if n == 0 then []
    else KeptIndices(scores, threshold, n - 1) + (if Kept(scores, threshold, n - 1) then [n - 1] else [])
  }

  /** The labels of the drawn boxes among the first n, in order: the labels
      the colour table is asked for. */
  function KeptLabels(d: Detections, threshold: real, n: nat): seq<string>
  {
    if n == 0 then []
    else KeptLabels(d, threshold, n - 1) + (if Kept(d.scores, threshold, n - 1) then [LabelAt(d.labels, n - 1)] else [])
  }

  /** The labels asked for are the labels of the kept boxes, in index order. */
  lemma {:induction false} KeptLabelsOfIndices(d: Detections, threshold: real, n: nat)
    ensures |KeptLabels(d, threshold, n)| == |KeptIndices(d.scores, threshold, n)|
    ensures forall k :: 0 <= k < |KeptLabels(d, threshold, n)| ==>
      KeptLabels(d, threshold, n)[k] == LabelAt(d.labels, KeptIndices(d.scores, threshold, n)[k])
  {
    if n > 0 {
      KeptLabelsOfIndices(d, threshold, n - 1);
    }
  }

  /** The canvas for a whole detection run over the current preview: empty
      when the preview shows no bitmap. */
  function Render(d: Detections, threshold: real, source: Option<Bitmap>, layout: Layout,
                  hash: string -> LabelColor, format: real -> string): (ps: seq<Primitive>)
    requires source.Some? ==> Decoded(source.value)
    ensures source.None? ==> ps == []
    ensures source.Some? ==> |ps| == 2 * |KeptIndices(d.scores, threshold, BoxCount(d.boxes))|
  {
    match source
    case None => []
    case Some(b) =>
      var v := Place(b, layout);
      DrawLength(d, threshold, ImageSize(b), v, hash, format, BoxCount(d.boxes));
      Draw(d, threshold, ImageSize(b), v, hash, format, BoxCount(d.boxes))
  }

  /** Two primitives per drawn box. */
  lemma DrawLength(d: Detections, threshold: real, image: Size, v: View,
                   hash: string -> LabelColor, format: real -> string, n: nat)
    requires n <= BoxCount(d.boxes) && v.scale > 0.0
    ensures |Draw(d, threshold, image, v, hash, format, n)| == 2 * |KeptIndices(d.scores, threshold, n)|
  {
    var f := PerBox(d, image, v, hash, format);
    forall i | 0 <= i < n
      ensures |f(i)| == 2
    {
      assert f(i) == BoxPrimitives(d, i, image, v, hash, format);
    }
    GatherLength(f, d.scores, threshold, n);
  }

  /** If f gives two primitives for each of the first n indices, gathering
      gives two per kept index. */
  lemma {:induction false} GatherLength(f: nat -> seq<Primitive>, scores: seq<real>, threshold: real, n: nat)
    requires forall i :: 0 <= i < n ==> |f(i)| == 2
    ensures |Gather(f, scores, threshold, n)| == 2 * |KeptIndices(scores, threshold, n)|
  {
    if n > 0 {
      GatherLength(f, scores, threshold, n - 1);
    }
  }

  predicate Ascending(ks: seq<nat>)
  {
    forall j, k :: 0 <= j < k < |ks| ==> ks[j] < ks[k]
  }

  /** A box is drawn exactly when its score reaches the threshold, and the
      drawn indices come in ascending order. */
  lemma {:induction false} KeptIndicesSpec(scores: seq<real>, threshold: real, n: nat)
    ensures forall i: nat :: i in KeptIndices(scores, threshold, n) <==> i < n && Kept(scores, threshold, i)
    ensures forall k :: 0 <= k < |KeptIndices(scores, threshold, n)| ==> KeptIndices(scores, threshold, n)[k] < n
    ensures Ascending(KeptIndices(scores, threshold, n))
  {
    if n > 0 {
      KeptIndicesSpec(scores, threshold, n - 1);
      var ks, ks' := KeptIndices(scores, threshold, n - 1), KeptIndices(scores, threshold, n);
      assert forall k :: 0 <= k < |ks| ==> ks[k] < n - 1;
      if Kept(scores, threshold, n - 1) {
        assert ks' == ks + [n - 1];
        assert forall k :: 0 <= k < |ks| ==> ks'[k] == ks[k];
      } else {
        assert ks' == ks;
      }
    }
  }

  /** What f gives for each index of ks, in the order of ks. */
  function Drawn(f: nat -> seq<Primitive>, ks: seq<nat>): seq<Primitive>
  {
    if ks == [] then [] else Drawn(f, ks[..|ks| - 1]) + f(ks[|ks| - 1])
  }

  /** Gathering over the first n indices is gathering over the kept indices. */
  lemma {:induction false} GatherShape(f: nat -> seq<Primitive>, scores: seq<real>, threshold: real, n: nat)
    ensures Gather(f, scores, threshold, n) == Drawn(f, KeptIndices(scores, threshold, n))
  {
    if n > 0 {
      GatherShape(f, scores, threshold, n - 1);
      var ks0 := KeptIndices(scores, threshold, n - 1);
      if Kept(scores, threshold, n - 1) {
        var ks := ks0 + [n - 1];
        assert KeptIndices(scores, threshold, n) == ks;
        assert ks[..|ks| - 1] == ks0 && ks[|ks| - 1] == n - 1;
      } else {
        assert KeptIndices(scores, threshold, n) == ks0;
        assert Gather(f, scores, threshold, n) == Gather(f, scores, threshold, n - 1) + [];
      }
    }
  }

  /** The canvas is the outline and caption of every drawn box, box after
      box in index order, and nothing else. */
  lemma DrawShape(d: Detections, threshold: real, image: Size, v: View,
                  hash: string -> LabelColor, format: real -> string, n: nat)
    requires n <= BoxCount(d.boxes) && v.scale > 0.0
    ensures Draw(d, threshold, image, v, hash, format, n) ==
            Drawn(PerBox(d, image, v, hash, format), KeptIndices(d.scores, threshold, n))
  {
    GatherShape(PerBox(d, image, v, hash, format), d.scores, threshold, n);
  }

  /** An outline at least 1 x 1, or a caption not above the canvas. */
  predicate Visible(p: Primitive)
  {
    (p.Outline? ==> p.width >= 1.0 && p.height >= 1.0) && (p.Caption? ==> p.top >= 0.0)
  }

  /** Every outline on the canvas is at least 1 x 1 and no caption is above
      the top of the canvas. */
  lemma DrawVisible(d: Detections, threshold: real, image: Size, v: View,
                    hash: string -> LabelColor, format: real -> string, n: nat)
    requires n <= BoxCount(d.boxes) && v.scale > 0.0
    ensures forall p :: p in Draw(d, threshold, image, v, hash, format, n) ==> Visible(p)
  {
    var f := PerBox(d, image, v, hash, format);
    forall i, p | 0 <= i < n && p in f(i)
      ensures Visible(p)
    {
      var ps := BoxPrimitives(d, i, image, v, hash, format);
      assert f(i) == ps;
      assert p == ps[0] || p == ps[1];
    }
    GatherKeeps(f, d.scores, threshold, n);
  }

  /** If everything f gives for the first n indices is visible, so is
      everything gathered. */
  lemma {:induction false} GatherKeeps(f: nat -> seq<Primitive>, scores: seq<real>, threshold: real, n: nat)
    requires forall i, p :: 0 <= i < n && p in f(i) ==> Visible(p)
    ensures forall p :: p in Gather(f, scores, threshold, n) ==> Visible(p)
  {
    if n > 0 {
      GatherKeeps(f, scores, threshold, n - 1);
    }
  }

  /** Gathering depends on f only at the first n indices. */
  lemma {:induction false} GatherSame(f: nat -> seq<Primitive>, g: nat -> seq<Primitive>,
                                      scores: seq<real>, threshold: real, n: nat)
    requires forall i :: 0 <= i < n ==> f(i) == g(i)
    ensures Gather(f, scores, threshold, n) == Gather(g, scores, threshold, n)
  {
    if n > 0 {
      GatherSame(f, g, scores, threshold, n - 1);
    }
  }

  /** Raising the threshold only removes boxes. */
  lemma ThresholdMonotone(scores: seq<real>, low: real, high: real, n: nat)
    requires low <= high
    ensures forall i :: i in KeptIndices(scores, high, n) ==> i in KeptIndices(scores, low, n)
  {
    KeptIndicesSpec(scores, low, n);
    KeptIndicesSpec(scores, high, n);
  }

  /** Numbers after the last whole group of four change nothing. */
  lemma TrailingIgnored(d: Detections, threshold: real, image: Size, v: View,
                        hash: string -> LabelColor, format: real -> string, n: nat)
    requires n <= BoxCount(d.boxes) && v.scale > 0.0
    ensures var whole := d.(boxes := d.boxes[..4 * BoxCount(d.boxes)]);
      BoxCount(whole.boxes) == BoxCount(d.boxes) &&
      Draw(whole, threshold, image, v, hash, format, n) == Draw(d, threshold, image, v, hash, format, n)
  {
    var whole := d.(boxes := d.boxes[..4 * BoxCount(d.boxes)]);
    assert BoxCount(whole.boxes) == BoxCount(d.boxes);
    var f, g := PerBox(whole, image, v, hash, format), PerBox(d, image, v, hash, format);
    forall i | 0 <= i < n
      ensures f(i) == g(i)
    {
      assert RawBoxAt(whole.boxes, i) == RawBoxAt(d.boxes, i);
      assert f(i) == BoxPrimitives(whole, i, image, v, hash, format);
      assert g(i) == BoxPrimitives(d, i, image, v, hash, format);
    }
    GatherSame(f, g, d.scores, threshold, n);
  }

  /** The canvas depends on the labels only through the label each box gets;
      in particular an absent label array draws like an empty one. */
  lemma SameLabelsSameDraw(d: Detections, labels: Option<seq<Option<string>>>, threshold: real,
                           image: Size, v: View,
                           hash: string -> LabelColor, format: real -> string, n: nat)
    requires n <= BoxCount(d.boxes) && v.scale > 0.0
    requires forall i :: 0 <= i < n ==> LabelAt(labels, i) == LabelAt(d.labels, i)
    ensures Draw(d.(labels := labels), threshold, image, v, hash, format, n) ==
            Draw(d, threshold, image, v, hash, format, n)
    ensures KeptLabels(d.(labels := labels), threshold, n) == KeptLabels(d, threshold, n)
  {
    var relabelled := d.(labels := labels);
    var f, g := PerBox(relabelled, image, v, hash, format), PerBox(d, image, v, hash, format);
    forall i | 0 <= i < n
      ensures f(i) == g(i)
    {
      assert f(i) == BoxPrimitives(relabelled, i, image, v, hash, format);
      assert g(i) == BoxPrimitives(d, i, image, v, hash, format);
    }
    GatherSame(f, g, d.scores, threshold, n);
    SameLabelsSameKept(d, labels, threshold, n);
  }

  /** The same for the labels the colour table is asked for. */
  lemma {:induction false} SameLabelsSameKept(d: Detections, labels: Option<seq<Option<string>>>,
                                              threshold: real, n: nat)
    requires forall i :: 0 <= i < n ==> LabelAt(labels, i) == LabelAt(d.labels, i)
    ensures KeptLabels(d.(labels := labels), threshold, n) == KeptLabels(d, threshold, n)
  {
    if n > 0 {
      SameLabelsSameKept(d, labels, threshold, n - 1);
    }
  }

  /** Example: scores 0.2, 0.9, 0.5 at threshold 0.4 keep boxes
      1 and 2, in that order and not by score. */
  lemma ExampleFilterOrder()
    ensures KeptIndices([0.2, 0.9, 0.5], 0.4, 3) == [1, 2]
  {
  }

  /** A box given as fractions of the image in [0, 1] has its top-left
      corner on the shown image. */
  lemma UnitBoxOnImage(b: RawBox, image: Size, v: View)
    requires Positive(image) && v.scale > 0.0
    requires 0.0 <= b.xTop <= 1.0 && 0.0 <= b.yTop <= 1.0
    requires 0.0 <= b.xBottom <= 1.0 && 0.0 <= b.yBottom <= 1.0
    ensures var r := ScreenRect(v, ToImage(b, image));
      v.offsetX <= r.left <= v.offsetX + image.width * v.scale &&
      v.offsetY <= r.top <= v.offsetY + image.height * v.scale
  {
    CornerOnImage(b, image);
    CornerOnView(v, ToImage(b, image), image.width, image.height);
  }

  /** Fractions in [0, 1] give a top-left corner on the image. */
  lemma CornerOnImage(b: RawBox, image: Size)
    requires Positive(image)
    requires 0.0 <= b.xTop <= 1.0 && 0.0 <= b.yTop <= 1.0
    requires 0.0 <= b.xBottom <= 1.0 && 0.0 <= b.yBottom <= 1.0
    ensures var p := ToImage(b, image);
      0.0 <= p.left <= image.width && 0.0 <= p.top <= image.height
  {
    assert Classify(b) == Normalized;
    var p := ToImage(b, image);
    assert p.left == b.xTop * image.width && p.top == b.yTop * image.height;
    Scaling(0.0, b.xTop, image.width, 0.0, p.left);
    Scaling(b.xTop, 1.0, image.width, p.left, image.width);
    Scaling(0.0, b.yTop, image.height, 0.0, p.top);
    Scaling(b.yTop, 1.0, image.height, p.top, image.height);
  }

  /** A corner on an image of the given size lands on that image as shown. */
  lemma CornerOnView(v: View, p: Box, width: real, height: real)
    requires v.scale > 0.0
    requires 0.0 <= p.left <= width && 0.0 <= p.top <= height
    ensures var r := ScreenRect(v, p);
      v.offsetX <= r.left <= v.offsetX + width * v.scale &&
      v.offsetY <= r.top <= v.offsetY + height * v.scale
  {
    var r := ScreenRect(v, p);
    assert r.left == v.offsetX + p.left * v.scale && r.top == v.offsetY + p.top * v.scale;
    Scaling(0.0, p.left, v.scale, 0.0, p.left * v.scale);
    Scaling(p.left, width, v.scale, p.left * v.scale, width * v.scale);
    Scaling(0.0, p.top, v.scale, 0.0, p.top * v.scale);
    Scaling(p.top, height, v.scale, p.top * v.scale, height * v.scale);
  }

  /** With uniform fit, such a corner is inside the container. */
  lemma UnitBoxOnCanvas(b: RawBox, image: Size, container: Size)
    requires Positive(image) && Positive(container)
    requires 0.0 <= b.xTop <= 1.0 && 0.0 <= b.yTop <= 1.0
    requires 0.0 <= b.xBottom <= 1.0 && 0.0 <= b.yBottom <= 1.0
    ensures var r := ScreenRect(Fit(image, container), ToImage(b, image));
      0.0 <= r.left <= container.width && 0.0 <= r.top <= container.height
  {
    UnitBoxOnImage(b, image, Fit(image, container));
    FitCentres(image, container);
  }

  /** Example placement: a 400 x 300 image at 96 dpi in
      a 200 x 150 overlay is halved and not offset. */
  lemma ExamplePlacement(preview: Size)
    ensures ImageSize(Bitmap(400, 300, 96.0, 96.0)) == Size(400.0, 300.0)
    ensures Place(Bitmap(400, 300, 96.0, 96.0), Layout(Size(200.0, 150.0), preview)) == View(0.5, 0.0, 0.0)
  {
    assert EffectiveDpi(96.0) == 96.0;
    assert Container(Layout(Size(200.0, 150.0), preview), Size(400.0, 300.0)) == Size(200.0, 150.0);
    assert 200.0 / 400.0 == 0.5 && 150.0 / 300.0 == 0.5;
  }

  /** Example: the box (0, 0, 0.5, 0.5) as fractions of a 400 x 300 image,
      mapped onto the canvas at scale 0.5. */
  lemma ExampleRect()
    ensures ScreenRect(View(0.5, 0.0, 0.0), ToImage(RawBox(0.0, 0.0, 0.5, 0.5), Size(400.0, 300.0))) ==
            Rect(0.0, 0.0, 100.0, 75.0)
  {
    assert ToImage(RawBox(0.0, 0.0, 0.5, 0.5), Size(400.0, 300.0)) == Box(0.0, 0.0, 200.0, 150.0);
  }

  /** Example: the caption of a box labelled "dog" with score 0.8. */
  lemma ExampleCaption(format: real -> string)
    ensures CaptionText("dog", 0.8, format) == "dog " + format(80.0) + "%"
  {
    assert 0.8 * 100.0 == 80.0;
    assert "dog" + " " + (format(80.0) + "%") == "dog " + format(80.0) + "%";
  }

  /** Example drawing pass: one normalised box covering the
      top-left quarter, score 0.8, label "dog", threshold 0.3, gives one
      100 x 75 outline at the origin and the caption "dog 80.0%" (as the
      format prints 80) pinned to the top of the canvas. */
  lemma ExampleDraw(hash: string -> LabelColor, format: real -> string, d: Detections, image: Size, v: View)
    requires d == Detections([0.0, 0.0, 0.5, 0.5], [0.8], Some([Some("dog")]))
    requires image == Size(400.0, 300.0) && v == View(0.5, 0.0, 0.0)
    ensures BoxCount(d.boxes) == 1
    ensures Draw(d, 0.3, image, v, hash, format, 1) ==
      [Outline(0.0, 0.0, 100.0, 75.0, hash("dog")),
       Caption(0.0, 0.0, "dog " + format(80.0) + "%", hash("dog"))]
  {
    assert BoxCount(d.boxes) == 1 && Kept(d.scores, 0.3, 0);
    assert RawBoxAt(d.boxes, 0) == RawBox(0.0, 0.0, 0.5, 0.5);
    assert LabelAt(d.labels, 0) == "dog" && ScoreAt(d.scores, 0) == 0.8;
    ExampleRect();
    ExampleCaption(format);
    assert Draw(d, 0.3, image, v, hash, format, 0) == [];
    assert CaptionTop(0.0) == 0.0 && ColorFor(hash, "dog") == hash("dog");
    DrawKept(d, 0.3, image, v, hash, format, 0, Rect(0.0, 0.0, 100.0, 75.0), "dog", 0.8);
    TwoAfterNothing(Draw(d, 0.3, image, v, hash, format, 0),
                    Outline(0.0, 0.0, 100.0, 75.0, hash("dog")),
                    Caption(0.0, 0.0, "dog " + format(80.0) + "%", hash("dog")));
  }

  /** Two items appended to an empty sequence. */
  lemma TwoAfterNothing<T>(e: seq<T>, a: T, b: T)
    requires e == []
    ensures e + [a] + [b] == [a, b]
  {
  }

  /** Example: the whole drawing pass for a 400 x 300 bitmap at 96 dpi in a
      200 x 150 overlay, with that one box labelled "dog" at score 0.8. */
  lemma ExampleDog(hash: string -> LabelColor, format: real -> string, preview: Size)
    ensures var d := Detections([0.0, 0.0, 0.5, 0.5], [0.8], Some([Some("dog")]));
      Render(d, 0.3, Some(Bitmap(400, 300, 96.0, 96.0)), Layout(Size(200.0, 150.0), preview), hash, format) ==
        [Outline(0.0, 0.0, 100.0, 75.0, hash("dog")),
         Caption(0.0, 0.0, "dog " + format(80.0) + "%", hash("dog"))]
  {
    var d := Detections([0.0, 0.0, 0.5, 0.5], [0.8], Some([Some("dog")]));
    var b, layout := Bitmap(400, 300, 96.0, 96.0), Layout(Size(200.0, 150.0), preview);
    ExamplePlacement(preview);
    assert Render(d, 0.3, Some(b), layout, hash, format) ==
           Draw(d, 0.3, ImageSize(b), Place(b, layout), hash, format, 1);
    ExampleDraw(hash, format, d, ImageSize(b), Place(b, layout));
  }
}
