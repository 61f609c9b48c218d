# Colour Detection Tool — a Dafny model of its logic

The Colour Detection Tool is a desktop window that samples a pixel colour from a
camera frame or a loaded image and reports its name, RGB triple, hex notation
and HSL values, keeping a history of captured colours. Almost all of it is
window and camera plumbing. This project models the logic inside
`ColorDetectionApp`:

- **Naming a colour** (`get_closest_color_name`, `get_color_name`). The tool
  scans a fixed palette of 29 named colours and keeps the nearest entry by
  Euclidean RGB distance. A strict `<` means the first entry at the minimum
  distance wins. An exact name from the external web-colour table takes
  precedence and is title-cased.
- **Fitting an image into the 630x480 display box** (the size arithmetic of
  `resize_image_maintain_aspect`).
- **Mapping a click back to a source pixel** (the arithmetic of
  `on_image_click`). The click is shifted by the letterbox offset, checked
  against the image bounds, then scaled, truncated and clamped.
- **The `#rrggbb` notation and the capture history** (`update_color_info`,
  `capture_current_color`).

Modules, one per component:

| file | module | what |
|---|---|---|
| wrappers.dfy | Wrappers | `Option` |
| colors.dfy | Colors | 8-bit channels, `Rgb`, OpenCV's `Bgr` order, squared distance |
| text.dfy | Text | ASCII forms of Python's `str.upper()` and `str.title()` |
| hex.dfy | Hex | the `#rrggbb` encoder, its upper-case display form, and a parser as its inverse |
| classifier.dfy | Classifier | the palette, the nearest-colour scan, `get_color_name` |
| geometry.dfy | Geometry | fitted display size, click-to-pixel mapping |
| app.dfy | App | the window's state as a class: loaded image, display size, current colour, panel text, history |

Modelling choices:

- The scan compares squared distances; the square root is monotone, so the
  order of candidates is the same. The initial `float('inf')` is `None`.
  How the channel values are stored decides the arithmetic
  (`Colors.ChannelArithmetic`):
  - `Unbounded`: Python integers, where the distance is the exact squared
    distance `Colors.SqDist`;
  - `Uint8`: NumPy `uint8` scalars under the promotion rules of NumPy 2 or
    later, where each subtraction, square and sum in line 410 wraps around
    modulo 256 (`Colors.WrappedSqDist`). Under NumPy 1.x, an operation on a
    `uint8` scalar and a Python integer is promoted to a 64-bit integer, and
    the distance is the exact one.

  Every colour the window names is a pixel read out of the image array
  (lines 323-324) and passed on unconverted (327, 345, 366; 422-424 for a
  capture), so the window (`App.PixelArithmetic`) uses `Uint8`, the NumPy 2
  behaviour; line 7 installs OpenCV, and with it NumPy, without a version
  pin. The exact
  scan is kept as the evidently intended behaviour; see "## Findings".
- The scan is `Classifier.ScanClosest`, a method over any palette. It is proved
  against `Classifier.NearestIndex`, a recursive definition over growing
  prefixes. `NearestIndex`'s contract is the first-nearest property, and it
  needs the contracts of its recursive calls.
- The external table `webcolors.rgb_to_name` is a function parameter
  `exactName: Rgb -> Option<string>`. `None` stands for the `ValueError` it
  raises.
- Python's float division is exact `real` division. `int()` is truncation
  toward zero (`Geometry.Trunc`).
- The window is the class `App.ColorDetectionApp`. Its `Valid()` states three
  things:
  - a loaded image is well formed, a stored display size is positive and
    inside the box, and it is the loaded image's fitted size whenever that
    image can be shown;
  - the panel shows the current colour's name and hex;
  - every history record holds its colour's hex notation and name.

Behaviour of the code worth knowing:

- `get_color_name` asks the external table first (line 362). Only colours the
  table does not know reach the palette scan. For those, the strict `<` at
  line 411 makes the later of two entries with the same colour lose. So the
  fallback scan, with exact distances, names:
  - (0,255,0) "Green", never "Lime";
  - (0,255,255) "Cyan", never "Aqua";
  - (255,0,255) "Magenta", never "Fuchsia".

  These three colours are CSS3 named colours, so the window shows the
  table's own name for each of them (for (0,255,0) that is lime); which
  spelling the table gives for the other two is not part of this model.
  `Classifier.OwnNameExactlyWithoutTwin` states exactly which entries the
  fallback scan names after themselves.
- A failed decode drops the previous image. Line 262 assigns the result of
  `cv2.imread` to `current_image` before line 263 tests it for `None`, and
  line 292 then ignores every click (`App.ColorDetectionApp.LoadImage`).
- The fitted size can have a zero side: a 1x100000 image fits to width 0. Such
  a size is never stored. Line 268 records the new image's dimensions, but
  Pillow's `resize` at line 276 refuses a zero side and raises before line 277
  stores the display size; line 288 only reports the error. The previous
  display size stays, and later clicks sample the new image through it. On a
  first load there is no display size at all; a click then raises at line 297
  and line 330 only reports it. So the division by zero at lines 297-298 is
  never reached (`App.ColorDetectionApp.ClickNeverFailsToScale`).

## Model

| member | source | states |
|---|---|---|
| Colors.ToRgb | Color_Detection_Tool/Color_Detection_Tool.py:324 | `tuple(reversed(...))` of a BGR pixel: reversing the result again gives back the stored pixel |
| Colors.SqDist | Color_Detection_Tool/Color_Detection_Tool.py:410 | the exact squared distance is zero exactly when the two colours are equal |
| Colors.WrappedSqDist | Color_Detection_Tool/Color_Detection_Tool.py:410 | the distance expression on `uint8` operands is always below 256 |
| Colors.WrappedSqDistIsResidue | Color_Detection_Tool/Color_Detection_Tool.py:410 | evaluating the distance with wrap-around after every operation gives the exact squared distance modulo 256 |
| Colors.WrappedDistanceBlind | Color_Detection_Tool/Color_Detection_Tool.py:410 | on `uint8` operands the distance between the different colours (16,0,0) and (0,0,0) is 0 |
| Classifier.NearestIndex | Color_Detection_Tool/Color_Detection_Tool.py:405-415 | for a non-empty palette the scan keeps an entry at least as close as every entry and strictly closer than every earlier one, under either arithmetic |
| Classifier.FirstNearestUnique | Color_Detection_Tool/Color_Detection_Tool.py:408-413 | at most one entry is the first nearest, so the scan's result is determined by that property |
| Classifier.ClosestName | Color_Detection_Tool/Color_Detection_Tool.py:405-415 | the basic-colour scan never answers "Unknown", for every input colour and either arithmetic |
| Classifier.NoEntryNamedUnknown | Color_Detection_Tool/Color_Detection_Tool.py:373-406 | no palette entry carries the fallback name "Unknown" |
| Classifier.ScanClosest | Color_Detection_Tool/Color_Detection_Tool.py:405-415 | the loop with strict `<` returns "Unknown" for an empty palette and otherwise the name of the first nearest entry |
| Classifier.GetClosestColorName | Color_Detection_Tool/Color_Detection_Tool.py:368-415 | the scan over the 29 basic colours returns the first nearest entry's name and never "Unknown" |
| Classifier.ClosestNameIs | Color_Detection_Tool/Color_Detection_Tool.py:405-415 | whichever entry is first nearest to the colour, its name is the answer |
| Classifier.TieGoesToEarliest | Color_Detection_Tool/Color_Detection_Tool.py:411-413 | of two entries with the same colour the later one is never chosen, whatever the input |
| Classifier.EntryClassifiesToFirstTwin | Color_Detection_Tool/Color_Detection_Tool.py:408-413 | with exact distances an entry's own colour classifies to the first entry with exactly that colour, which is the entry itself or an earlier twin |
| Classifier.OwnIndexIffNoEarlierTwin | Color_Detection_Tool/Color_Detection_Tool.py:408-413 | with exact distances an entry wins for its own colour if and only if no earlier entry has that colour |
| Classifier.OnlyThreeTwins | Color_Detection_Tool/Color_Detection_Tool.py:373-403 | in the basic palette only Lime, Aqua and Fuchsia repeat an earlier entry's colour |
| Classifier.OwnIndexWithoutTwin | Color_Detection_Tool/Color_Detection_Tool.py:373-415 | with exact distances every basic colour other than those three wins the scan for its own colour |
| Classifier.GreenNotLime | Color_Detection_Tool/Color_Detection_Tool.py:374-413 | with exact distances the fallback scan names (0,255,0) "Green", never "Lime" (the exact table, consulted first, names it lime) |
| Classifier.CyanNotAqua | Color_Detection_Tool/Color_Detection_Tool.py:374-413 | with exact distances the fallback scan names (0,255,255) "Cyan", never "Aqua" |
| Classifier.MagentaNotFuchsia | Color_Detection_Tool/Color_Detection_Tool.py:374-413 | with exact distances the fallback scan names (255,0,255) "Magenta", never "Fuchsia" |
| Classifier.OwnNameExactlyWithoutTwin | Color_Detection_Tool/Color_Detection_Tool.py:373-415 | with exact distances the fallback scan names a palette entry's colour after that entry if and only if it is not Lime, Aqua or Fuchsia |
| Classifier.NearBlackIsBlack | Color_Detection_Tool/Color_Detection_Tool.py:373-415 | with exact distances the scan names (1,1,1) "Black" |
| Classifier.WrappedNearBlackIsPurple | Color_Detection_Tool/Color_Detection_Tool.py:405-415 | with `uint8` distances the scan names the pixel (1,1,1) "Purple": wrapped, Purple is at distance 3 like Black, and comes first |
| Classifier.ColorName | Color_Detection_Tool/Color_Detection_Tool.py:358-366 | an exact name keeps its length through title-casing; without one the answer is the scan's and never "Unknown" |
| Classifier.GetColorName | Color_Detection_Tool/Color_Detection_Tool.py:358-366 | an exact name from the external table wins, title-cased; otherwise the answer is exactly the palette scan's, never "Unknown" |
| Classifier.ExactNameTitled | Color_Detection_Tool/Color_Detection_Tool.py:362-363 | a name taken from the exact table is already in title case |
| Text.Upper | Color_Detection_Tool/Color_Detection_Tool.py:355 | `upper()` keeps the length and upper-cases each character |
| Text.TitleFrom | Color_Detection_Tool/Color_Detection_Tool.py:363 | title-casing from a given position keeps the length |
| Text.Title | Color_Detection_Tool/Color_Detection_Tool.py:363 | `title()` keeps the length |
| Text.TitleIdempotent | Color_Detection_Tool/Color_Detection_Tool.py:363 | title-casing a title-cased string changes nothing |
| Text.TitleAt | Color_Detection_Tool/Color_Detection_Tool.py:363 | `title()` upper-cases each character that does not follow a letter and lower-cases each one that does |
| Hex.HexByte | Color_Detection_Tool/Color_Detection_Tool.py:341 | `{n:02x}` gives exactly two lower-case hex digits whose values are n / 16 and n % 16 |
| Hex.HexColor | Color_Detection_Tool/Color_Detection_Tool.py:341 | the notation is 7 characters: `#` and six lower-case hex digits |
| Hex.DisplayHex | Color_Detection_Tool/Color_Detection_Tool.py:355 | the displayed notation is `#` and six upper-case hex digits |
| Hex.ByteRoundTrip | Color_Detection_Tool/Color_Detection_Tool.py:341 | the two digits written for a channel, in either case, read back as that channel |
| Hex.HexColorRoundTrip | Color_Detection_Tool/Color_Detection_Tool.py:341-355 | both the stored and the displayed notation decode back to the same colour |
| Hex.ParseHexColorInverse | Color_Detection_Tool/Color_Detection_Tool.py:341 | every string the parser accepts is the notation of the colour it reads, up to digit case |
| Hex.HexColorInjective | Color_Detection_Tool/Color_Detection_Tool.py:423 | two colours never share a notation |
| Geometry.Trunc | Color_Detection_Tool/Color_Detection_Tool.py:315-316 | `int()` of a float lies within one below (or, for a negative value, above) it, toward zero |
| Geometry.FitWithin | Color_Detection_Tool/Color_Detection_Tool.py:192-207 | the new size lies in the box and fills it along one side |
| Geometry.TruncQuotient | Color_Detection_Tool/Color_Detection_Tool.py:203-207 | `int()` of a non-negative exact quotient is integer division |
| Geometry.RatioCompare | Color_Detection_Tool/Color_Detection_Tool.py:200 | the aspect-ratio test is the comparison of cross products |
| Geometry.FitWithinBox | Color_Detection_Tool/Color_Detection_Tool.py:192-207 | the fitted size lies in the box; a wider image gets full width and height floor(maxW*oh/ow), any other full height and width floor(maxH*ow/oh) |
| Geometry.FitWithinExamples | Color_Detection_Tool/Color_Detection_Tool.py:197-207 | 1000x500 fits to 630x315 and 400x800 to 240x480 in the 630x480 box |
| Geometry.LocalCoordinate | Color_Detection_Tool/Color_Detection_Tool.py:305-310 | the click, less half the label's slack, lies in [0, displaySize] exactly when twice the event position lies within the rendering's span around the label's centre |
| Geometry.ToSource | Color_Detection_Tool/Color_Detection_Tool.py:315-320 | for a non-empty source axis the scaled, truncated and clamped coordinate is always a valid index |
| Geometry.MapClick | Color_Detection_Tool/Color_Detection_Tool.py:297-320 | a pixel comes only from a click inside the centred rendering, and it lies inside the source image |
| Geometry.ToSourceInRange | Color_Detection_Tool/Color_Detection_Tool.py:315-320 | a local coordinate within the rendering maps into the source range; inside it, the scaled position rounded down; on the far edge, the last pixel |
| Geometry.MapClickOutcome | Color_Detection_Tool/Color_Detection_Tool.py:297-320 | a click fails exactly when a display dimension is 0; it yields no sample exactly when its offset position leaves [0,w]x[0,h]; otherwise it yields an in-range source pixel |
| Geometry.ToSourceUndoesScaling | Color_Detection_Tool/Color_Detection_Tool.py:297-316 | clicking where a source pixel starts on screen selects that pixel |
| Geometry.MapClickExamples | Color_Detection_Tool/Color_Detection_Tool.py:297-320 | the centre of the 650x500 label over a 1000x500 image shown at 630x315 maps to (500,250); the label's corner misses the image |
| App.ColorDetectionApp.constructor | Color_Detection_Tool/Color_Detection_Tool.py:23-36 | a new window has no camera running, no image, no display size, no current colour and an empty history |
| App.ColorDetectionApp.UpdateColorInfo | Color_Detection_Tool/Color_Detection_Tool.py:334-356 | the colour becomes current and the panel shows its upper-case hex and the name `get_color_name` gives it with `uint8` arithmetic |
| App.ColorDetectionApp.ClickedColor | Color_Detection_Tool/Color_Detection_Tool.py:292-324 | a click samples a colour only with an image loaded, the camera off and a display size stored, and what it samples is a pixel of the loaded image, BGR reversed to RGB |
| App.ColorDetectionApp.ClickNeverFailsToScale | Color_Detection_Tool/Color_Detection_Tool.py:297-298 | in a valid window the stored display size is never zero, so the scale division never fails |
| App.ColorDetectionApp.OnImageClick | Color_Detection_Tool/Color_Detection_Tool.py:291-332 | a click that samples a pixel makes that pixel (BGR reversed to RGB) the current colour; any other click, including one before any display size is stored, leaves colour and panel unchanged |
| App.ColorDetectionApp.LoadImage | Color_Detection_Tool/Color_Detection_Tool.py:249-289 | a chosen file stops the camera; a failed decode clears the image and keeps the display size; a decoded image becomes current, and is shown at its fitted size within 630x480 when both sides are positive, otherwise the display size stays as it was |
| App.ColorDetectionApp.CaptureCurrentColor | Color_Detection_Tool/Color_Detection_Tool.py:417-438 | with no current colour the history is unchanged; otherwise exactly one record {rgb, hex, uint8-arithmetic name} of it is appended and earlier records are untouched |

## Left out

- Window construction, button states, status-bar text and the history text
  widget (`setup_ui`, `update_color_history`, the label strings). These are
  presentation only. The panel is modelled only as the name and hex it shows.
- The camera: `start_camera`, `stop_camera`, the `update_camera` loop and its
  thread, and the crosshair drawing. These are device I/O and a concurrent loop.
  `is_camera_running` is a field the click handler reads and a file load
  clears. Nothing in the model sets it.
- File dialogs and `cv2.imread`. A load is given its outcome as a parameter:
  dismissed, failed to decode, or a decoded image.
- PIL's LANCZOS resampling and the `ImageTk` conversion. Only the size
  arithmetic is modelled.
- The HSL conversion through `colorsys.rgb_to_hls`, which is floating point.
- The contents of the external web-colour table. It is an arbitrary function
  parameter.
- `main`'s package check, the notebook's `pip install` line, `__del__` and the
  debug prints. These are environment plumbing.
- Geometry.FitWithin: IEEE double rounding of `aspect_ratio` is not modelled.
  Exact reals are used, so at rounding boundaries Python may truncate one pixel
  lower.
- Geometry.MapClick: IEEE double rounding of the offsets and scale factors is
  not modelled. Exact reals are used, so Python may pick a neighbouring pixel at
  a rounding boundary. The range guarantee does not depend on this, because of
  the clamp.
- Text.Title: only ASCII letters count as cased. Python's `str.title()` also
  cases other Unicode letters; the external table's names are ASCII.
- Pillow is not part of this model. That its `resize` refuses a size with a
  zero side is taken as given (`App.Showable`); what it does with positive
  sizes is not modelled.
- The `except Exception` branches of `upload_image` and `on_image_click`, and
  the message boxes they show, for errors other than the refused resize and
  the click before any display size is stored. Both of those are modelled as
  returns that keep the state they leave.
- App.ColorDetectionApp.UpdateColorInfo, App.ColorDetectionApp.CaptureCurrentColor:
  the window is modelled with NumPy 2 promotion (`App.PixelArithmetic` is
  `Uint8`). Under NumPy 1.x its arithmetic is `Unbounded`, and the name shown
  and captured is the exact scan's; the model does not cover that version.
- App.ColorDetectionApp.UpdateColorInfo, App.ColorDetectionApp.CaptureCurrentColor:
  the preview swatch colour and the HSL label are not modelled; only the
  current colour, the name, the hex notation and the history are.

## Findings

| source | as written | input that shows it | evidently intended | confidence | as-written member | corrected member |
|---|---|---|---|---|---|---|
| Color_Detection_Tool/Color_Detection_Tool.py:410 | the distance `(r - cr) ** 2 + ...` is evaluated on the `uint8` pixel channels read at lines 323-324, so with NumPy 2 or later each subtraction, square and sum wraps modulo 256 | with NumPy 2 or later, clicking a pixel (1,1,1), which has no exact CSS3 name: Purple (128,0,128) is at wrapped distance 3, ties Black, and comes first, so the window shows "Purple" | the Euclidean distance on integers, which names (1,1,1) "Black" | not executed | Classifier.WrappedNearBlackIsPurple | Classifier.NearBlackIsBlack |

