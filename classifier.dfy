/** Naming a colour: an exact name from an external web-colour table when it
    has one, otherwise the nearest entry of a fixed 29-colour palette. */
module Classifier {
  import opened Wrappers
  import opened Colors
  import opened Text

  datatype NamedColor = NamedColor(name: string, rgb: Rgb)

  type Palette = seq<NamedColor>

  /** The basic colours, in the order the scan visits them. Several names share
      a colour (Green/Lime, Cyan/Aqua, Magenta/Fuchsia). */
  const BasicColors: Palette := [
    NamedColor("Red", Rgb(255, 0, 0)),
    NamedColor("Green", Rgb(0, 255, 0)),
    NamedColor("Blue", Rgb(0, 0, 255)),
    NamedColor("Yellow", Rgb(255, 255, 0)),
    NamedColor("Orange", Rgb(255, 165, 0)),
    NamedColor("Purple", Rgb(128, 0, 128)),
    NamedColor("Pink", Rgb(255, 192, 203)),
    NamedColor("Brown", Rgb(165, 42, 42)),
    NamedColor("Gray", Rgb(128, 128, 128)),
    NamedColor("Black", Rgb(0, 0, 0)),
    NamedColor("White", Rgb(255, 255, 255)),
    NamedColor("Cyan", Rgb(0, 255, 255)),
    NamedColor("Magenta", Rgb(255, 0, 255)),
    NamedColor("Navy", Rgb(0, 0, 128)),
    NamedColor("Maroon", Rgb(128, 0, 0)),
    NamedColor("Olive", Rgb(128, 128, 0)),
    NamedColor("Lime", Rgb(0, 255, 0)),
    NamedColor("Aqua", Rgb(0, 255, 255)),
    NamedColor("Silver", Rgb(192, 192, 192)),
    NamedColor("Teal", Rgb(0, 128, 128)),
    NamedColor("Fuchsia", Rgb(255, 0, 255)),
    NamedColor("Gold", Rgb(255, 215, 0)),
    NamedColor("Indigo", Rgb(75, 0, 130)),
    NamedColor("Violet", Rgb(238, 130, 238)),
    NamedColor("Turquoise", Rgb(64, 224, 208)),
    NamedColor("Coral", Rgb(255, 127, 80)),
    NamedColor("Salmon", Rgb(250, 128, 114)),
    NamedColor("Khaki", Rgb(240, 230, 140)),
    NamedColor("Crimson", Rgb(220, 20, 60))
  ]

  /** The name the scan starts from and would return for an empty palette. */
  const Unknown: string := "Unknown"

  /** Entry k is at least as close to c as every entry, and strictly closer
      than every entry before it: the first entry at the minimum distance,
      measured with the arithmetic of the operands. */
  ghost predicate IsFirstNearest(p: Palette, c: Rgb, k: int, arith: ChannelArithmetic)
  {
    && 0 <= k < |p|
    && (forall j :: 0 <= j < |p| ==> Distance(arith, c, p[k].rgb) <= Distance(arith, c, p[j].rgb))
    && (forall j :: 0 <= j < k ==> Distance(arith, c, p[k].rgb) < Distance(arith, c, p[j].rgb))
  }

  /** The index a strict-`<` scan of p keeps, defined on growing prefixes the
      way the scan visits them. */
  function NearestIndex(p: Palette, c: Rgb, arith: ChannelArithmetic): (k: nat)
    requires |p| > 0
    ensures IsFirstNearest(p, c, k, arith)
    decreases |p|
  {
    if |p| == 1 then 0
    else
      var front := p[..|p| - 1];
      var k := NearestIndex(front, c, arith);
      if Distance(arith, c, p[|p| - 1].rgb) < Distance(arith, c, front[k].rgb) then |p| - 1 else k
  }

  /** At most one entry is the first nearest. */
  lemma FirstNearestUnique(p: Palette, c: Rgb, k1: int, k2: int, arith: ChannelArithmetic)
    requires IsFirstNearest(p, c, k1, arith) && IsFirstNearest(p, c, k2, arith)
    ensures k1 == k2
  {
    // each is at least as close as the other, so neither can come first
    assert Distance(arith, c, p[k1].rgb) == Distance(arith, c, p[k2].rgb);
  }

  /** `get_closest_color_name`'s answer as a value, for operands of the
      given type. */
  function ClosestName(c: Rgb, arith: ChannelArithmetic): (name: string)
    ensures name != Unknown
  {
    var k := NearestIndex(BasicColors, c, arith);
    NoEntryNamedUnknown(k);
    BasicColors[k].name
  }

  lemma NoEntryNamedUnknown(k: int)
    requires 0 <= k < |BasicColors|
    ensures BasicColors[k].name != Unknown
  {
  }

  /** The loop of `get_closest_color_name` over any palette: keep the entry
      with the smallest distance seen so far, replacing it only on a strictly
      smaller one; the initial `float('inf')` is None. */
  method ScanClosest(colorMap: Palette, c: Rgb, arith: ChannelArithmetic) returns (closest: string)
    ensures |colorMap| == 0 ==> closest == Unknown
    ensures |colorMap| > 0 ==> closest == colorMap[NearestIndex(colorMap, c, arith)].name
  {
    var minDistance: Option<nat> := None;
    closest := Unknown;
    ghost var k := 0;
    for i := 0 to |colorMap|
      invariant i == 0 ==> minDistance == None && closest == Unknown
      invariant i > 0 ==> k == NearestIndex(colorMap[..i], c, arith)
      invariant i > 0 ==> minDistance == Some(Distance(arith, c, colorMap[k].rgb)) && closest == colorMap[k].name
    {
      assert colorMap[..i + 1][..i] == colorMap[..i];
      var distance := Distance(arith, c, colorMap[i].rgb);
      if minDistance.None? || distance < minDistance.value {
        minDistance := Some(distance);
        closest := colorMap[i].name;
        k := i;
      }
    }
    assert colorMap[..|colorMap|] == colorMap;
  }

  /** `get_closest_color_name`: the scan over the basic colours, which never
      answers "Unknown". */
  method GetClosestColorName(c: Rgb, arith: ChannelArithmetic) returns (closest: string)
    ensures closest == ClosestName(c, arith)
    ensures closest != Unknown
  {
    closest := ScanClosest(BasicColors, c, arith);
  }

  /** `get_color_name` as a value. `exactName` stands for the external
      web-colour table: the name it knows for a colour, or None where it
      raises ValueError. */
  function ColorName(c: Rgb, exactName: Rgb -> Option<string>, arith: ChannelArithmetic): (name: string)
    ensures exactName(c).Some? ==> |name| == |exactName(c).value|
    ensures exactName(c).None? ==> name != Unknown
  {
    match exactName(c)
    case Some(n) => Title(n)
    case None => ClosestName(c, arith)
  }

  /** `get_color_name`: the exact name, title-cased, when the external table
      has one; otherwise exactly what the palette scan answers. */
  method GetColorName(c: Rgb, exactName: Rgb -> Option<string>, arith: ChannelArithmetic) returns (name: string)
    ensures exactName(c).Some? ==> name == Title(exactName(c).value)
    ensures exactName(c).None? ==> name == ClosestName(c, arith) && name != Unknown
    ensures name == ColorName(c, exactName, arith)
  {
    var exact := exactName(c);
    if exact.Some? {
      name := Title(exact.value);
    } else {
      name := GetClosestColorName(c, arith);
    }
  }

  /** A name that comes from the exact table is already in title case. */
  lemma ExactNameTitled(c: Rgb, exactName: Rgb -> Option<string>, arith: ChannelArithmetic)
    requires exactName(c).Some?
    ensures Title(ColorName(c, exactName, arith)) == ColorName(c, exactName, arith)
  {
    TitleIdempotent(exactName(c).value);
  }

  /** The scan's answer is the name of whichever entry is the first nearest. */
  lemma ClosestNameIs(c: Rgb, k: int, arith: ChannelArithmetic)
    requires IsFirstNearest(BasicColors, c, k, arith)
    ensures ClosestName(c, arith) == BasicColors[k].name
  {
    FirstNearestUnique(BasicColors, c, k, NearestIndex(BasicColors, c, arith), arith);
  }

  /** Of two entries with the same colour, the later one is never chosen. */
  lemma TieGoesToEarliest(p: Palette, c: Rgb, i: int, j: int, arith: ChannelArithmetic)
    requires 0 <= i < j < |p| && p[i].rgb == p[j].rgb
    ensures NearestIndex(p, c, arith) != j
  {
  }

  /** On integer operands, classifying the colour of entry k picks the first
      entry with exactly that colour, which is k itself or an earlier twin. */
  lemma EntryClassifiesToFirstTwin(p: Palette, k: int)
    requires 0 <= k < |p|
    ensures p[NearestIndex(p, p[k].rgb, Unbounded)].rgb == p[k].rgb
    ensures NearestIndex(p, p[k].rgb, Unbounded) <= k
    ensures forall j :: 0 <= j < NearestIndex(p, p[k].rgb, Unbounded) ==> p[j].rgb != p[k].rgb
  {
  }

  /** On integer operands, entry k wins for its own colour exactly when no
      earlier entry has it. */
  lemma OwnIndexIffNoEarlierTwin(p: Palette, k: int)
    requires 0 <= k < |p|
    ensures NearestIndex(p, p[k].rgb, Unbounded) == k <==> forall j :: 0 <= j < k ==> p[j].rgb != p[k].rgb
  {
  }

  /** Lime (16), Aqua (17) and Fuchsia (20) are the only entries that repeat
      the colour of an earlier one. */
  lemma OnlyThreeTwins(j: int, k: int)
    requires 0 <= j < k < |BasicColors| && k != 16 && k != 17 && k != 20
    ensures BasicColors[j].rgb != BasicColors[k].rgb
  {
    if k < 12 {
      NoTwinsUpTo11(j, k);
    } else if k < 21 {
      NoTwinsUpTo20(j, k);
    } else {
      NoTwinsUpTo28(j, k);
    }
  }

  // OnlyThreeTwins for the entries k in one block of the palette at a time.

  lemma NoTwinsUpTo11(j: int, k: int)
    requires 0 <= j < k < 12
    ensures BasicColors[j].rgb != BasicColors[k].rgb
  {
  }

  lemma NoTwinsUpTo20(j: int, k: int)
    requires 0 <= j < k && 12 <= k < 21 && k != 16 && k != 17 && k != 20
    ensures BasicColors[j].rgb != BasicColors[k].rgb
  {
  }

  lemma NoTwinsUpTo28(j: int, k: int)
    requires 0 <= j < k && 21 <= k < 29
    ensures BasicColors[j].rgb != BasicColors[k].rgb
  {
  }

  /** With exact distances, an entry with no earlier twin wins the scan for
      its own colour. */
  lemma OwnIndexWithoutTwin(k: int)
    requires 0 <= k < |BasicColors| && k != 16 && k != 17 && k != 20
    ensures NearestIndex(BasicColors, BasicColors[k].rgb, Unbounded) == k
  {
    forall j | 0 <= j < k
      ensures BasicColors[j].rgb != BasicColors[k].rgb
    {
      OnlyThreeTwins(j, k);
    }
    OwnIndexIffNoEarlierTwin(BasicColors, k);
  }

  /** The fallback scan names (0,255,0) Green, never Lime: Green comes first
      in the palette. (The exact table, consulted first, calls it lime.) */
  lemma GreenNotLime()
    ensures ClosestName(Rgb(0, 255, 0), Unbounded) == "Green"
  {
    assert BasicColors[1] == NamedColor("Green", Rgb(0, 255, 0));
    OwnIndexWithoutTwin(1);
  }

  /** The fallback scan names (0,255,255) Cyan, never Aqua. */
  lemma CyanNotAqua()
    ensures ClosestName(Rgb(0, 255, 255), Unbounded) == "Cyan"
  {
    assert BasicColors[11] == NamedColor("Cyan", Rgb(0, 255, 255));
    OwnIndexWithoutTwin(11);
  }

  /** The fallback scan names (255,0,255) Magenta, never Fuchsia. */
  lemma MagentaNotFuchsia()
    ensures ClosestName(Rgb(255, 0, 255), Unbounded) == "Magenta"
  {
    assert BasicColors[12] == NamedColor("Magenta", Rgb(255, 0, 255));
    OwnIndexWithoutTwin(12);
  }

  /** The fallback scan names every palette entry after itself except the
      three later twins. */
  lemma OwnNameExactlyWithoutTwin(k: int)
    requires 0 <= k < |BasicColors|
    ensures ClosestName(BasicColors[k].rgb, Unbounded) == BasicColors[k].name <==> k != 16 && k != 17 && k != 20
  {
    if k == 16 {
      assert BasicColors[16] == NamedColor("Lime", Rgb(0, 255, 0));
      GreenNotLime();
    } else if k == 17 {
      assert BasicColors[17] == NamedColor("Aqua", Rgb(0, 255, 255));
      CyanNotAqua();
    } else if k == 20 {
      assert BasicColors[20] == NamedColor("Fuchsia", Rgb(255, 0, 255));
      MagentaNotFuchsia();
    } else {
      OwnIndexWithoutTwin(k);
    }
  }

  lemma NearBlackBound(j: int)
    requires 0 <= j < |BasicColors|
    ensures Distance(Unbounded, Rgb(1, 1, 1), BasicColors[j].rgb) >= 3
    ensures j < 9 ==> Distance(Unbounded, Rgb(1, 1, 1), BasicColors[j].rgb) > 3
  {
  }

  lemma NearBlackNearest()
    ensures IsFirstNearest(BasicColors, Rgb(1, 1, 1), 9, Unbounded)
  {
    assert BasicColors[9].rgb == Rgb(0, 0, 0);
    assert Distance(Unbounded, Rgb(1, 1, 1), BasicColors[9].rgb) == 3;
    forall j | 0 <= j < |BasicColors|
      ensures Distance(Unbounded, Rgb(1, 1, 1), BasicColors[j].rgb) >= 3
      ensures j < 9 ==> Distance(Unbounded, Rgb(1, 1, 1), BasicColors[j].rgb) > 3
    {
      NearBlackBound(j);
    }
  }

  /** On integer operands a colour next to black is Black. */
  lemma NearBlackIsBlack()
    ensures ClosestName(Rgb(1, 1, 1), Unbounded) == "Black"
  {
    assert BasicColors[9].name == "Black";
    NearBlackNearest();
    ClosestNameIs(Rgb(1, 1, 1), 9, Unbounded);
  }

  /** The entries before Purple are all farther from (1,1,1) under wrap-around. */
  lemma WrappedNearBlackBoundBefore(j: int)
    requires 0 <= j < 5
    ensures SqDist(Rgb(1, 1, 1), BasicColors[j].rgb) % 256 > 3
  {
  }

  /** No entry from Purple on is closer to (1,1,1) than 3 under wrap-around,
      in the two halves of the rest of the palette. */
  lemma WrappedNearBlackBoundMiddle(j: int)
    requires 5 <= j < 16
    ensures SqDist(Rgb(1, 1, 1), BasicColors[j].rgb) % 256 >= 3
  {
  }

  lemma WrappedNearBlackBoundLast(j: int)
    requires 16 <= j < 29
    ensures SqDist(Rgb(1, 1, 1), BasicColors[j].rgb) % 256 >= 3
  {
  }

  /** Purple is the first nearest entry to c == (1,1,1) under wrap-around
      (c is a parameter so that the wrapped distance is computed through its
      residue form rather than unfolded). */
  lemma WrappedNearBlackNearest(c: Rgb)
    requires c == Rgb(1, 1, 1)
    ensures IsFirstNearest(BasicColors, c, 5, Uint8)
  {
    assert BasicColors[5].rgb == Rgb(128, 0, 128);
    assert SqDist(c, BasicColors[5].rgb) % 256 == 3;
    WrappedSqDistIsResidue(c, BasicColors[5].rgb);
    forall j | 0 <= j < |BasicColors|
      ensures Distance(Uint8, c, BasicColors[j].rgb) >= 3
      ensures j < 5 ==> Distance(Uint8, c, BasicColors[j].rgb) > 3
    {
      WrappedSqDistIsResidue(c, BasicColors[j].rgb);
      if j < 5 {
        WrappedNearBlackBoundBefore(j);
      } else if j < 16 {
        WrappedNearBlackBoundMiddle(j);
      } else {
        WrappedNearBlackBoundLast(j);
      }
    }
  }

  /** On `uint8` operands, as the click handler passes them, the same colour
      is named Purple: (1-128)^2 wraps to 1, so Purple's distance wraps to 3,
      ties Black's and comes first. */
  lemma WrappedNearBlackIsPurple()
    ensures ClosestName(Rgb(1, 1, 1), Uint8) == "Purple"
  {
    assert BasicColors[5].name == "Purple";
    WrappedNearBlackNearest(Rgb(1, 1, 1));
    ClosestNameIs(Rgb(1, 1, 1), 5, Uint8);
  }
}
