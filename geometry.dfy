/**
 * Where the preview image sits on screen. The image's pixel size is turned
 * into device-independent units (DIPs, 1/96 inch), a container is chosen
 * from the laid-out controls, and the image is fitted into it uniformly:
 * scaled as large as it fits while keeping its aspect ratio, then centred.
 */
module Geometry {
  /** A width and a height in DIPs. */
  datatype Size = Size(width: real, height: real)

  predicate Positive(s: Size)
  {
    s.width > 0.0 && s.height > 0.0
  }

  /** The decoded bitmap behind the preview: its pixel counts and the
      resolution recorded in the file (dots per inch; 0 or less when the
      file records none). */
  datatype Bitmap = Bitmap(pixelWidth: int, pixelHeight: int, dpiX: real, dpiY: real)

  /** A bitmap the decoder produced has at least one pixel in each direction. */
  predicate Decoded(b: Bitmap)
  {
    b.pixelWidth > 0 && b.pixelHeight > 0
  }

  /** The rendered sizes the layout pass gave the overlay canvas and the
      preview image (0 before layout has run). */
  datatype Layout = Layout(overlay: Size, preview: Size)

  const DipsPerInch: real := 96.0

  /** The resolution used for the conversion: the recorded one when it is
      positive, otherwise the screen's 96. */
  function EffectiveDpi(dpi: real): (r: real)
    ensures r > 0.0
    ensures dpi > 0.0 ==> r == dpi
    ensures dpi <= 0.0 ==> r == DipsPerInch
  {
    if dpi > 0.0 then dpi else DipsPerInch
  }

  /** A pixel count in DIPs. */
  function ToDips(pixels: int, dpi: real): (r: real)
    ensures pixels > 0 ==> r > 0.0
    ensures dpi <= 0.0 || dpi == DipsPerInch ==> r == pixels as real
  {
    pixels as real * (DipsPerInch / EffectiveDpi(dpi))
  }

  /** DIPs measure inches at 96 per inch: the DIP length times the
      resolution is the pixel count times 96. */
  lemma DipsAreInches(pixels: int, dpi: real)
    ensures ToDips(pixels, dpi) * EffectiveDpi(dpi) == pixels as real * DipsPerInch
  {
    var e := EffectiveDpi(dpi);
    assert (DipsPerInch / e) * e == DipsPerInch;
    assert pixels as real * (DipsPerInch / e) * e == pixels as real * ((DipsPerInch / e) * e);
  }

  /** The natural size of the image in DIPs. */
  function ImageSize(b: Bitmap): (s: Size)
    ensures Decoded(b) ==> Positive(s)
  {
    Size(ToDips(b.pixelWidth, b.dpiX), ToDips(b.pixelHeight, b.dpiY))
  }

  /** Each axis is converted with its own resolution: the width with the
      horizontal DPI, the height with the vertical one. */
  lemma ImageSizePerAxis(b: Bitmap)
    ensures ImageSize(b).width * EffectiveDpi(b.dpiX) == b.pixelWidth as real * DipsPerInch
    ensures ImageSize(b).height * EffectiveDpi(b.dpiY) == b.pixelHeight as real * DipsPerInch
  {
    DipsAreInches(b.pixelWidth, b.dpiX);
    DipsAreInches(b.pixelHeight, b.dpiY);
  }

  /** The size laid out for one dimension: the overlay's when positive,
      else the preview's (which may itself still be 0). */
  function Laid(overlay: real, preview: real): real
  {
    if overlay > 0.0 then overlay else preview
  }

  /** True when layout has not produced a usable container yet. */
  predicate Unlaid(layout: Layout)
  {
    Laid(layout.overlay.width, layout.preview.width) <= 0.0 ||
    Laid(layout.overlay.height, layout.preview.height) <= 0.0
  }

  /** The container the image is fitted into: per dimension the overlay's
      rendered size, else the preview's; when either dimension is still not
      positive, the image's own size. */
  function Container(layout: Layout, image: Size): (c: Size)
    ensures Positive(image) ==> Positive(c)
    ensures Positive(layout.overlay) ==> c == layout.overlay
    ensures layout.overlay.width <= 0.0 && layout.preview.width <= 0.0 ==> c == image
    ensures layout.overlay.height <= 0.0 && layout.preview.height <= 0.0 ==> c == image
    ensures Unlaid(layout) ==> c == image
    ensures !Unlaid(layout) && layout.overlay.width > 0.0 ==> c.width == layout.overlay.width
    ensures !Unlaid(layout) && layout.overlay.width <= 0.0 ==> c.width == layout.preview.width
    ensures !Unlaid(layout) && layout.overlay.height > 0.0 ==> c.height == layout.overlay.height
    ensures !Unlaid(layout) && layout.overlay.height <= 0.0 ==> c.height == layout.preview.height
  {
    if Unlaid(layout) then image
    else Size(Laid(layout.overlay.width, layout.preview.width),
              Laid(layout.overlay.height, layout.preview.height))
  }

  /** Uniform placement: the factor from image DIPs to container DIPs and
      the top-left corner of the scaled image inside the container. */
  datatype View = View(scale: real, offsetX: real, offsetY: real)

  function Min(a: real, b: real): real
  {
    if a <= b then a else b
  }

  /** Division by a positive number keeps the order of products. */
  lemma QuotientBound(a: real, q: real, d: real)
    requires d > 0.0
    ensures q * d <= a <==> q <= a / d
  {
    assert (a / d) * d == a;
    if q <= a / d {
      assert q * d <= (a / d) * d;
    } else {
      assert q * d > (a / d) * d;
    }
  }

  /** Scale the image as large as it fits in the container and centre it. */
  function Fit(image: Size, container: Size): (v: View)
    requires Positive(image) && Positive(container)
    ensures v.scale > 0.0 && v.offsetX >= 0.0 && v.offsetY >= 0.0
  {
    var scale := Min(container.width / image.width, container.height / image.height);
    FitFills(image, container);
    View(scale, (container.width - image.width * scale) / 2.0,
                (container.height - image.height * scale) / 2.0)
  }

  /** The fitted image lies inside the container, touches it on at least one
      side, and leaves equal margins on opposite sides. */
  lemma FitFills(image: Size, container: Size)
    requires Positive(image) && Positive(container)
    ensures var scale := Min(container.width / image.width, container.height / image.height);
      var w, h := image.width * scale, image.height * scale;
      scale > 0.0 && w <= container.width && h <= container.height &&
      (w == container.width || h == container.height)
  {
    var sx := container.width / image.width;
    var sy := container.height / image.height;
    var scale := Min(sx, sy);
    QuotientBound(container.width, scale, image.width);
    QuotientBound(container.height, scale, image.height);
    assert sx * image.width == container.width;
    assert sy * image.height == container.height;
  }

  /** What uniform fit promises: scale positive, the scaled image inside the
      container and touching it on one side, and the image centred. */
  lemma FitCentres(image: Size, container: Size)
    requires Positive(image) && Positive(container)
    ensures var v := Fit(image, container);
      var w, h := image.width * v.scale, image.height * v.scale;
      w <= container.width && h <= container.height &&
      (w == container.width || h == container.height) &&
      2.0 * v.offsetX + w == container.width && 2.0 * v.offsetY + h == container.height
  {
    FitFills(image, container);
  }

  /** No larger scale keeps the whole image inside the container. */
  lemma FitIsLargest(image: Size, container: Size, s: real)
    requires Positive(image) && Positive(container)
    requires image.width * s <= container.width && image.height * s <= container.height
    ensures s <= Fit(image, container).scale
  {
    QuotientBound(container.width, s, image.width);
    QuotientBound(container.height, s, image.height);
  }

  /** The placement of a bitmap for the given layout. */
  function Place(b: Bitmap, layout: Layout): (v: View)
    requires Decoded(b)
    ensures v.scale > 0.0 && v.offsetX >= 0.0 && v.offsetY >= 0.0
    ensures Unlaid(layout) ==> v == View(1.0, 0.0, 0.0)
    ensures var image, c := ImageSize(b), Container(layout, ImageSize(b));
      var w, h := image.width * v.scale, image.height * v.scale;
      w <= c.width && h <= c.height && (w == c.width || h == c.height) &&
      2.0 * v.offsetX + w == c.width && 2.0 * v.offsetY + h == c.height
  {
    var image := ImageSize(b);
    var c := Container(layout, image);
    FitOwnSize(image);
    FitCentres(image, c);
    Fit(image, c)
  }

  /** An image fitted into a container of its own size is drawn unscaled
      at the origin. */
  lemma FitOwnSize(image: Size)
    requires Positive(image)
    ensures Fit(image, image) == View(1.0, 0.0, 0.0)
  {
    var v := Fit(image, image);
    FitIsLargest(image, image, 1.0);
    FitCentres(image, image);
  }

  /** Example: a 200 x 100 image in a 100 x 100 container is
      bound by its width, halved, and centred vertically. */
  lemma FitExample()
    ensures Fit(Size(200.0, 100.0), Size(100.0, 100.0)) == View(0.5, 0.0, 25.0)
  {
  }
}
