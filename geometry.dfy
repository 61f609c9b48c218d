/** The two pieces of arithmetic between a source image and its on-screen
    rendering: the aspect-preserving fit into a fixed viewport, and the mapping
    of a click on the centred rendering back to a source pixel. Python's
    float division is taken as exact real division. */
module Geometry {

  /** Width and height of an image, in pixels. */
  datatype Size = Size(width: int, height: int)

  /** A source image and the size it is shown at. */
  datatype DisplayGeometry = DisplayGeometry(
    originalWidth: nat, originalHeight: nat, displayWidth: nat, displayHeight: nat)

  /** What a click yields: nothing when it misses the image, a source pixel,
      or the error raised when a display dimension is zero (the handler
      catches it and only reports it). */
  datatype Click = OutsideImage | Pixel(x: int, y: int) | ScaleFailure

  function Min(a: int, b: int): int { if a < b then a else b }

  function Max(a: int, b: int): int { if a < b then b else a }

  /** Python's `int()` on a float: truncation toward zero. */
  function Trunc(x: real): (n: int)
    ensures x >= 0.0 ==> n as real <= x < n as real + 1.0
    ensures x < 0.0 ==> n as real - 1.0 < x <= n as real
  {
    if x >= 0.0 then x.Floor else -((-x).Floor)
  }

  /** The new size computed by `resize_image_maintain_aspect`: it lies in
      the box and fills it along one side. */
  function FitWithin(originalWidth: nat, originalHeight: nat, maxWidth: nat, maxHeight: nat): (s: Size)
    requires originalHeight > 0 && maxHeight > 0
    ensures 0 <= s.width <= maxWidth && 0 <= s.height <= maxHeight
    ensures s.width == maxWidth || s.height == maxHeight
  {
    var aspectRatio := originalWidth as real / originalHeight as real;
    RatioCompare(originalWidth, originalHeight, maxWidth, maxHeight);
    if aspectRatio > maxWidth as real / maxHeight as real then
      DivideByRatio(maxWidth, originalWidth, originalHeight);
      ProportionalSide(maxWidth * originalHeight, originalWidth, maxHeight);
      Size(maxWidth, Trunc(maxWidth as real / aspectRatio))
    else
      MultiplyByRatio(maxHeight, originalWidth, originalHeight);
      ProportionalSide(maxHeight * originalWidth, originalHeight, maxWidth);
      Size(Trunc(maxHeight as real * aspectRatio), maxHeight)
  }

  /** Dividing non-negative integers as reals and truncating is integer division. */
  lemma TruncQuotient(n: int, d: int)
    requires n >= 0 && d > 0
    ensures Trunc(n as real / d as real) == n / d
  {
    var q, r := n / d, n % d;
    assert n == q * d + r;
    assert n as real / d as real == q as real + r as real / d as real;
    assert 0.0 <= r as real / d as real < 1.0;
  }

  /** Comparing two ratios is comparing the cross products. */
  lemma RatioCompare(a: int, b: int, c: int, d: int)
    requires b > 0 && d > 0
    ensures a as real / b as real > c as real / d as real <==> a * d > c * b
  {
  }

  /** The division bounds of q == n / d. */
  lemma QuotientBounds(n: int, d: int)
    requires n >= 0 && d > 0
    ensures (n / d) * d <= n < (n / d + 1) * d
  {
  }

  lemma DivideByRatio(m: int, a: int, b: int)
    requires a > 0 && b > 0
    ensures m as real / (a as real / b as real) == (m * b) as real / a as real
  {
  }

  lemma MultiplyByRatio(m: int, a: int, b: int)
    requires b > 0
    ensures m as real * (a as real / b as real) == (m * a) as real / b as real
  {
  }

  /** The proportional side, n / d rounded down, stays below the bound whenever
      n < bound * d. */
  lemma ProportionalSide(n: int, d: int, bound: int)
    requires n >= 0 && d > 0 && n <= bound * d
    ensures Trunc(n as real / d as real) == n / d
    ensures (n / d) * d <= n < (n / d + 1) * d
    ensures n / d <= bound
  {
    TruncQuotient(n, d);
    QuotientBounds(n, d);
    CancelFactor(n / d, bound, d);
  }

  lemma CancelFactor(a: int, b: int, d: int)
    requires d > 0 && a * d <= b * d
    ensures a <= b
  {
    assert (b - a) * d >= 0;
  }

  /** The fitted size lies inside the box, touches it on the bound side, and
      on the other side is the exact proportional length rounded down. */
  lemma FitWithinBox(ow: nat, oh: nat, maxW: nat, maxH: nat)
    requires oh > 0 && maxH > 0
    ensures 0 <= FitWithin(ow, oh, maxW, maxH).width <= maxW
    ensures 0 <= FitWithin(ow, oh, maxW, maxH).height <= maxH
    ensures ow * maxH > maxW * oh ==>
      var s := FitWithin(ow, oh, maxW, maxH);
      s.width == maxW && s.height * ow <= maxW * oh < (s.height + 1) * ow
    ensures ow * maxH <= maxW * oh ==>
      var s := FitWithin(ow, oh, maxW, maxH);
      s.height == maxH && s.width * oh <= maxH * ow < (s.width + 1) * oh
  {
    RatioCompare(ow, oh, maxW, maxH);
    if ow * maxH > maxW * oh {
      DivideByRatio(maxW, ow, oh);
      ProportionalSide(maxW * oh, ow, maxH);
    } else {
      MultiplyByRatio(maxH, ow, oh);
      ProportionalSide(maxH * ow, oh, maxW);
    }
  }

  lemma FitWithinExamples()
    ensures FitWithin(1000, 500, 630, 480) == Size(630, 315)
    ensures FitWithin(400, 800, 630, 480) == Size(240, 480)
  {
  }

  /** A click coordinate relative to the rendering: the label is larger than
      the rendering, which sits centred in it, so half the slack is subtracted. */
  function LocalCoordinate(event: int, labelSize: int, displaySize: nat): (local: real)
    ensures 0.0 <= local <= displaySize as real <==>
      labelSize - displaySize <= 2 * event <= labelSize + displaySize
  {
    event as real - (labelSize - displaySize) as real / 2.0
  }

  /** One source coordinate: scale the local coordinate up, truncate, clamp.
      Whatever the click, the clamp keeps it on a source pixel. */
  function ToSource(local: real, displaySize: nat, originalSize: nat): (i: int)
    requires displaySize > 0
    ensures originalSize > 0 ==> 0 <= i < originalSize
  {
    var scale := originalSize as real / displaySize as real;
    Max(0, Min(Trunc(local * scale), originalSize - 1))
  }

  /** The arithmetic of `on_image_click`, from the event position and the
      label's current size to a source pixel. A pixel comes only from a click
      on the centred rendering, and lies inside the source image. */
  function MapClick(eventX: int, eventY: int, labelWidth: int, labelHeight: int, g: DisplayGeometry): (c: Click)
    ensures c.Pixel? ==>
      && labelWidth - g.displayWidth <= 2 * eventX <= labelWidth + g.displayWidth
      && labelHeight - g.displayHeight <= 2 * eventY <= labelHeight + g.displayHeight
    ensures c.Pixel? && g.originalWidth > 0 && g.originalHeight > 0 ==>
      0 <= c.x < g.originalWidth && 0 <= c.y < g.originalHeight
  {
    if g.displayWidth == 0 || g.displayHeight == 0 then ScaleFailure
    else
      var clickX := LocalCoordinate(eventX, labelWidth, g.displayWidth);
      var clickY := LocalCoordinate(eventY, labelHeight, g.displayHeight);
      if 0.0 <= clickX <= g.displayWidth as real && 0.0 <= clickY <= g.displayHeight as real then
        Pixel(ToSource(clickX, g.displayWidth, g.originalWidth),
              ToSource(clickY, g.displayHeight, g.originalHeight))
      else
        OutsideImage
  }

  /** A click inside the rendering lands on a source pixel: inside the
      rendering proper it is the scaled position rounded down, and on the far
      edge (local == displaySize) the clamp keeps it on the last pixel. */
  lemma ToSourceInRange(local: real, displaySize: nat, originalSize: nat)
    requires displaySize > 0 && originalSize > 0
    requires 0.0 <= local <= displaySize as real
    ensures 0 <= ToSource(local, displaySize, originalSize) < originalSize
    ensures local < displaySize as real ==>
      var x := ToSource(local, displaySize, originalSize);
      x as real <= local * originalSize as real / displaySize as real < x as real + 1.0
    ensures local == displaySize as real ==> ToSource(local, displaySize, originalSize) == originalSize - 1
  {
    var scaled := local * (originalSize as real / displaySize as real);
    ScaledForm(local, displaySize, originalSize);
    ScaledBelow(local, displaySize, originalSize);
    ClampTruncated(scaled, originalSize);
  }

  /** ToSource truncates the scaled position `local * n / d` and clamps it. */
  lemma ScaledForm(local: real, d: nat, n: nat)
    requires d > 0
    ensures local * (n as real / d as real) == local * n as real / d as real
    ensures ToSource(local, d, n) == Max(0, Min(Trunc(local * (n as real / d as real)), n - 1))
  {
  }

  /** Truncating and clamping a position in [0, n] gives a pixel index; below n
      the clamp does nothing. */
  lemma ClampTruncated(scaled: real, n: nat)
    requires n > 0 && 0.0 <= scaled <= n as real
    ensures scaled < n as real ==> Max(0, Min(Trunc(scaled), n - 1)) == Trunc(scaled)
    ensures scaled == n as real ==> Max(0, Min(Trunc(scaled), n - 1)) == n - 1
  {
  }

  lemma ScaledBelow(local: real, displaySize: nat, originalSize: nat)
    requires displaySize > 0 && originalSize > 0
    requires 0.0 <= local <= displaySize as real
    ensures local * originalSize as real / displaySize as real <= originalSize as real
    ensures local < displaySize as real ==> local * originalSize as real / displaySize as real < originalSize as real
    ensures local == displaySize as real ==> local * originalSize as real / displaySize as real == originalSize as real
  {
    var q := local / displaySize as real;
    assert local * originalSize as real / displaySize as real == q * originalSize as real;
    assert q <= 1.0;
  }

  /** The three outcomes of a click: the error exactly when a display
      dimension is zero, no sample exactly when the click misses the
      rendering, otherwise a pixel inside the source image. */
  lemma MapClickOutcome(eventX: int, eventY: int, labelWidth: int, labelHeight: int, g: DisplayGeometry)
    requires g.originalWidth > 0 && g.originalHeight > 0
    ensures MapClick(eventX, eventY, labelWidth, labelHeight, g) == ScaleFailure
        <==> g.displayWidth == 0 || g.displayHeight == 0
    ensures MapClick(eventX, eventY, labelWidth, labelHeight, g) == OutsideImage
        <==> g.displayWidth > 0 && g.displayHeight > 0 &&
             !(0.0 <= LocalCoordinate(eventX, labelWidth, g.displayWidth) <= g.displayWidth as real &&
               0.0 <= LocalCoordinate(eventY, labelHeight, g.displayHeight) <= g.displayHeight as real)
    ensures MapClick(eventX, eventY, labelWidth, labelHeight, g).Pixel? ==>
      var p := MapClick(eventX, eventY, labelWidth, labelHeight, g);
      0 <= p.x < g.originalWidth && 0 <= p.y < g.originalHeight
  {
  }

  /** Clicking where a source pixel's left (or top) edge is drawn selects
      that pixel: the mapping undoes the scaling. */
  lemma ToSourceUndoesScaling(px: nat, displaySize: nat, originalSize: nat)
    requires displaySize > 0 && px < originalSize
    ensures ToSource(px as real * displaySize as real / originalSize as real, displaySize, originalSize) == px
  {
    var local := px as real * displaySize as real / originalSize as real;
    var scale := originalSize as real / displaySize as real;
    assert local * scale == px as real;
  }

  /** A 1000x500 image shown at 630x315 in the 650x500 label: the label's
      centre maps to the source centre, its corner misses the image. */
  lemma MapClickExamples()
    ensures MapClick(325, 250, 650, 500, DisplayGeometry(1000, 500, 630, 315)) == Pixel(500, 250)
    ensures MapClick(0, 0, 650, 500, DisplayGeometry(1000, 500, 630, 315)) == OutsideImage
  {
  }
}
