/** The state of the colour detection window that its logic reads and
    writes: the loaded image and the size it is shown at, the colour detected
    last, what the information panel shows for it, and the capture history. */
module App {
  import opened Wrappers
  import opened Colors
  import opened Hex
  import opened Classifier
  import opened Geometry

  /** The box every image or frame is fitted into before it is shown. */
  const DisplayMaxWidth: nat := 630
  const DisplayMaxHeight: nat := 480

  /** A decoded raster as OpenCV gives it: `height` rows of `width` BGR pixels. */
  datatype Image = Image(width: nat, height: nat, pixels: seq<seq<Bgr>>)

  predicate WellFormed(img: Image)
  {
    && img.width > 0 && img.height > 0
    && |img.pixels| == img.height
    && forall y :: 0 <= y < |img.pixels| ==> |img.pixels[y]| == img.width
  }

  /** One entry of the capture history. */
  datatype CaptureRecord = CaptureRecord(rgb: Rgb, hex: string, name: string)

  /** What choosing a file produced: the dialog was dismissed, the file did
      not decode, or an image. */
  datatype LoadOutcome = Cancelled | DecodeFailed | Decoded(image: Image)

  /** Pixels are read out of NumPy arrays as `uint8` scalars, and the click
      handler passes them on to the naming code unconverted. With NumPy 2 or
      later, arithmetic between such a scalar and a Python integer stays
      `uint8` and wraps; under NumPy 1.x it is promoted to a 64-bit integer,
      which would be `Unbounded`. The window is modelled with NumPy 2. */
  const PixelArithmetic: ChannelArithmetic := Uint8

  /** Pillow's `resize` refuses a size with a zero side, so only an image
      whose fitted size has two positive sides is ever shown. */
  predicate Showable(img: Image)
  {
    img.height > 0 &&
    var s := FitWithin(img.width, img.height, DisplayMaxWidth, DisplayMaxHeight);
    s.width > 0 && s.height > 0
  }

  /** A loaded image is well formed; a display size, once stored, is a size
      that was shown (positive and inside the box), and it is the loaded
      image's fitted size whenever that image could be shown. */
  ghost predicate DisplayConsistent(image: Option<Image>, displaySize: Option<Size>)
  {
    && (displaySize.Some? ==>
          && 0 < displaySize.value.width <= DisplayMaxWidth
          && 0 < displaySize.value.height <= DisplayMaxHeight)
    && (image.Some? ==> WellFormed(image.value))
    && (image.Some? && Showable(image.value) ==>
          displaySize == Some(FitWithin(image.value.width, image.value.height, DisplayMaxWidth, DisplayMaxHeight)))
  }

  /** The panel describes the current colour. */
  ghost predicate PanelShows(color: Option<Rgb>, name: string, hex: string, exactName: Rgb -> Option<string>)
  {
    color.Some? ==> hex == DisplayHex(color.value) && name == ColorName(color.value, exactName, PixelArithmetic)
  }

  /** A record holds its colour's hex notation and its name. */
  ghost predicate RecordFor(rec: CaptureRecord, exactName: Rgb -> Option<string>)
  {
    rec.hex == HexColor(rec.rgb) && rec.name == ColorName(rec.rgb, exactName, PixelArithmetic)
  }

  ghost predicate HistoryConsistent(history: seq<CaptureRecord>, exactName: Rgb -> Option<string>)
  {
    forall i :: 0 <= i < |history| ==> RecordFor(history[i], exactName)
  }

  class ColorDetectionApp {
    /** The external exact-name table (`webcolors.rgb_to_name`). */
    const exactName: Rgb -> Option<string>

    var isCameraRunning: bool
    var currentImage: Option<Image>
    /** `display_width` and `display_height`; None until a first image has
        been shown. */
    var displaySize: Option<Size>
    var currentColor: Option<Rgb>
    /** What the name and HEX labels show for the current colour. */
    var shownName: string
    var shownHex: string
    var colorHistory: seq<CaptureRecord>

    ghost predicate Valid()
      reads this
    {
      && DisplayConsistent(currentImage, displaySize)
      && PanelShows(currentColor, shownName, shownHex, exactName)
      && HistoryConsistent(colorHistory, exactName)
    }

    constructor (exactName: Rgb -> Option<string>)
      ensures Valid()
      ensures this.exactName == exactName
      ensures !isCameraRunning && currentImage == None && displaySize == None
      ensures currentColor == None && colorHistory == []
    {
      this.exactName := exactName;
      isCameraRunning := false;
      currentImage := None;
      displaySize := None;
      currentColor := None;
      shownName, shownHex := "-", "-";
      colorHistory := [];
    }

    /** `update_color_info`: the colour becomes current and the panel shows
        its name and upper-case hex notation. */
    method UpdateColorInfo(c: Rgb)
      requires Valid()
      modifies this`currentColor, this`shownName, this`shownHex
      ensures Valid()
      ensures currentColor == Some(c)
      ensures shownHex == DisplayHex(c) && shownName == ColorName(c, exactName, PixelArithmetic)
    {
      var colorName := GetColorName(c, exactName, PixelArithmetic);
      currentColor, shownName, shownHex := Some(c), colorName, DisplayHex(c);
    }

    /** The colour a click samples, if any: None when no image is loaded,
        the camera runs, no display size was ever stored, or the click misses
        the image; otherwise a pixel of the loaded image. */
    ghost function ClickedColor(eventX: int, eventY: int, labelWidth: int, labelHeight: int): (color: Option<Rgb>)
      reads this
      requires Valid()
      ensures color.Some? ==> !isCameraRunning && currentImage.Some? && displaySize.Some?
      ensures color.Some? ==>
        var img := currentImage.value;
        exists y, x :: 0 <= y < img.height && 0 <= x < img.width && color.value == ToRgb(img.pixels[y][x])
    {
      if currentImage.None? || isCameraRunning || displaySize.None? then None
      else
        var img := currentImage.value;
        var g := DisplayGeometry(img.width, img.height, displaySize.value.width, displaySize.value.height);
        var click := MapClick(eventX, eventY, labelWidth, labelHeight, g);
        if click.Pixel? then
          var bgr := img.pixels[click.y][click.x];
          assert 0 <= click.y < img.height && 0 <= click.x < img.width && ToRgb(bgr) == ToRgb(img.pixels[click.y][click.x]);
          Some(ToRgb(bgr))
        else None
    }

    /** In a valid window every stored display size is positive, so the
        division at the start of the click handler never fails. */
    lemma ClickNeverFailsToScale(eventX: int, eventY: int, labelWidth: int, labelHeight: int)
      requires Valid() && currentImage.Some? && displaySize.Some?
      ensures
        var g := DisplayGeometry(currentImage.value.width, currentImage.value.height,
                                 displaySize.value.width, displaySize.value.height);
        MapClick(eventX, eventY, labelWidth, labelHeight, g) != ScaleFailure
    {
    }

    /** `on_image_click`: a click on the shown image makes the source pixel
        under it the current colour; any other click changes nothing. With no
        display size stored yet, reading it raises, and the handler only
        reports that. */
    method OnImageClick(eventX: int, eventY: int, labelWidth: int, labelHeight: int)
      requires Valid()
      modifies this`currentColor, this`shownName, this`shownHex
      ensures Valid()
      ensures old(ClickedColor(eventX, eventY, labelWidth, labelHeight)).Some? ==>
        currentColor == old(ClickedColor(eventX, eventY, labelWidth, labelHeight))
      ensures old(ClickedColor(eventX, eventY, labelWidth, labelHeight)).None? ==>
        currentColor == old(currentColor) && shownName == old(shownName) && shownHex == old(shownHex)
    {
      if currentImage.None? || isCameraRunning {
        return;
      }
      if displaySize.None? {
        return;
      }
      var img := currentImage.value;
      var g := DisplayGeometry(img.width, img.height, displaySize.value.width, displaySize.value.height);
      var click := MapClick(eventX, eventY, labelWidth, labelHeight, g);
      if click.Pixel? {
        var bgrColor := img.pixels[click.y][click.x];
        UpdateColorInfo(ToRgb(bgrColor));
      }
    }

    /** `upload_image` after the dialog: a chosen file stops the camera and
        the decoded image (or None, when decoding fails) replaces the current
        one. A decoded image that can be shown is shown at its fitted size;
        for one whose fitted size has a zero side the resize raises before the
        display size is stored, so the previous display size stays. */
    method LoadImage(outcome: LoadOutcome)
      requires Valid()
      requires outcome.Decoded? ==> WellFormed(outcome.image)
      modifies this`isCameraRunning, this`currentImage, this`displaySize
      ensures Valid()
      ensures outcome.Cancelled? ==>
        isCameraRunning == old(isCameraRunning) && currentImage == old(currentImage) && displaySize == old(displaySize)
      ensures !outcome.Cancelled? ==> !isCameraRunning
      ensures outcome.DecodeFailed? ==> currentImage == None && displaySize == old(displaySize)
      ensures outcome.Decoded? ==> currentImage == Some(outcome.image)
      ensures outcome.Decoded? && Showable(outcome.image) ==>
        displaySize == Some(FitWithin(outcome.image.width, outcome.image.height, DisplayMaxWidth, DisplayMaxHeight))
      ensures outcome.Decoded? && !Showable(outcome.image) ==> displaySize == old(displaySize)
    {
      if outcome.Cancelled? {
        return;
      }
      if isCameraRunning {
        isCameraRunning := false;
      }
      if outcome.DecodeFailed? {
        currentImage := None;
        return;
      }
      var img := outcome.image;
      currentImage := Some(img);
      var size := FitWithin(img.width, img.height, DisplayMaxWidth, DisplayMaxHeight);
      if size.width == 0 || size.height == 0 {
        return;
      }
      displaySize := Some(size);
    }

    /** `capture_current_color`: with no current colour nothing changes;
        otherwise one record of the current colour, its hex notation and its
        name is appended and every earlier record stays as it was. */
    method CaptureCurrentColor()
      requires Valid()
      modifies this`colorHistory
      ensures Valid()
      ensures old(currentColor).None? ==> colorHistory == old(colorHistory)
      ensures old(currentColor).Some? ==>
        var c := old(currentColor).value;
        colorHistory == old(colorHistory) + [CaptureRecord(c, HexColor(c), ColorName(c, exactName, PixelArithmetic))]
    {
      if currentColor.None? {
        return;
      }
      var c := currentColor.value;
      var hexColor := HexColor(c);
      var colorName := GetColorName(c, exactName, PixelArithmetic);
      colorHistory := colorHistory + [CaptureRecord(c, hexColor, colorName)];
    }
  }
}
