/**
 * The detector reports each box as four numbers (xTop, yTop, xBottom,
 * yBottom) without saying whether they are fractions of the image or
 * pixel positions. Each box is classified on its own by the size of its
 * numbers and converted to positions on the image, in DIPs.
 */
module Coordinates {
  import opened Geometry

  /** One box as the detector reports it. */
  datatype RawBox = RawBox(xTop: real, yTop: real, xBottom: real, yBottom: real)

  /** A box in positions on the natural image (DIPs). */
  datatype Box = Box(left: real, top: real, right: real, bottom: real)

  /** How the four numbers of a raw box are read. */
  datatype Convention = Normalized | Absolute

  /** Magnitude up to which a coordinate is taken as a fraction of the image
      (a little above 1 to absorb rounding at the edge). */
  const Tolerance: real := 1.01

  function Abs(x: real): (r: real)
    ensures r >= 0.0 && (r == x || r == -x)
  {
    if x < 0.0 then -x else x
  }

  predicate Fraction(x: real)
  {
    -Tolerance <= x <= Tolerance
  }

  /** A box is normalised exactly when all four magnitudes are at most the
      tolerance; otherwise all four numbers are pixel positions. */
  function Classify(b: RawBox): (c: Convention)
    ensures c == Normalized <==>
      Fraction(b.xTop) && Fraction(b.yTop) && Fraction(b.xBottom) && Fraction(b.yBottom)
  {
    if Abs(b.xTop) <= Tolerance && Abs(b.yTop) <= Tolerance &&
       Abs(b.xBottom) <= Tolerance && Abs(b.yBottom) <= Tolerance
    then Normalized
    else Absolute
  }

  /** The box in image positions: fractions are multiplied by the image's
      width (x) or height (y); pixel positions are kept. */
  function ToImage(b: RawBox, image: Size): (p: Box)
    ensures Classify(b) == Absolute ==> p == Box(b.xTop, b.yTop, b.xBottom, b.yBottom)
  {
    if Classify(b) == Normalized then
      Box(b.xTop * image.width, b.yTop * image.height,
          b.xBottom * image.width, b.yBottom * image.height)
    else
      Box(b.xTop, b.yTop, b.xBottom, b.yBottom)
  }

  /** Conversion keeps the orientation of a box: a top-left corner that is
      left of (above) the bottom-right one stays so, and an inverted box
      stays inverted. */
  lemma OrientationKept(b: RawBox, image: Size)
    requires Positive(image)
    ensures var p := ToImage(b, image);
      (b.xTop <= b.xBottom <==> p.left <= p.right) &&
      (b.yTop <= b.yBottom <==> p.top <= p.bottom)
  {
    var p := ToImage(b, image);
    if Classify(b) == Normalized {
      Scaling(b.xTop, b.xBottom, image.width, p.left, p.right);
      Scaling(b.yTop, b.yBottom, image.height, p.top, p.bottom);
    }
  }

  /** Multiplying by a positive length keeps the order of two numbers. */
  lemma Scaling(a: real, b: real, k: real, ak: real, bk: real)
    requires k > 0.0 && ak == a * k && bk == b * k
    ensures a <= b <==> ak <= bk
  {
    var d := b - a;
    assert bk - ak == d * k;
    if a <= b {
      assert d * k >= 0.0;
    } else {
      assert (-d) * k > 0.0;
    }
  }

  /** A normalised box is a box of fractions of the image: dividing its image
      positions by the image's size gives back the reported numbers. */
  lemma NormalizedFractions(b: RawBox, image: Size)
    requires Positive(image) && Classify(b) == Normalized
    ensures var p := ToImage(b, image);
      p.left / image.width == b.xTop && p.right / image.width == b.xBottom &&
      p.top / image.height == b.yTop && p.bottom / image.height == b.yBottom
  {
  }

  /** A normalised box lies within the image, widened by the tolerance. */
  lemma NormalizedWithinImage(b: RawBox, image: Size)
    requires Positive(image) && Classify(b) == Normalized
    ensures var p := ToImage(b, image);
      Spans(p.left, image.width) && Spans(p.right, image.width) &&
      Spans(p.top, image.height) && Spans(p.bottom, image.height)
  {
    var w, h := image.width, image.height;
    var p := ToImage(b, image);
    assert p.left == b.xTop * w && p.right == b.xBottom * w;
    assert p.top == b.yTop * h && p.bottom == b.yBottom * h;
    assert Spans(p.left, w) by { FractionWithin(b.xTop, w, p.left); }
    assert Spans(p.right, w) by { FractionWithin(b.xBottom, w, p.right); }
    assert Spans(p.top, h) by { FractionWithin(b.yTop, h, p.top); }
    assert Spans(p.bottom, h) by { FractionWithin(b.yBottom, h, p.bottom); }
  }

  /** A position within the tolerance of a side of the given length. */
  predicate Spans(x: real, length: real)
  {
    -(Tolerance * length) <= x <= Tolerance * length
  }

  lemma FractionWithin(x: real, k: real, y: real)
    requires Fraction(x) && k > 0.0 && y == x * k
    ensures Spans(y, k)
  {
    var below, above := Tolerance + x, Tolerance - x;
    assert below >= 0.0 && above >= 0.0;
    assert below * k >= 0.0;
    assert above * k >= 0.0;
    assert below * k == Tolerance * k + y;
    assert above * k == Tolerance * k - y;
  }

  /** Example: two boxes on a 200 x 100 image: fractions are
      scaled, pixel positions pass through unchanged. */
  lemma ExampleBoxes()
    ensures ToImage(RawBox(0.1, 0.2, 0.5, 0.6), Size(200.0, 100.0)) == Box(20.0, 20.0, 100.0, 60.0)
    ensures ToImage(RawBox(20.0, 20.0, 100.0, 60.0), Size(200.0, 100.0)) == Box(20.0, 20.0, 100.0, 60.0)
  {
  }
}
