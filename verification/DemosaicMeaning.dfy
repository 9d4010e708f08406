/** What a demosaiced pixel is, on the raw samples alone: the native sample in its channel, and the
    means of the nearest samples in the two others (crates/autopiercam-core/src/image.rs). */
module DemosaicMeaning {

  import opened Arithmetic
  import opened Demosaic

  /** The channels of a 2x2 cell of the sensor in reading order; red is 0, green 1, blue 2. */
  function Cell(pattern: BayerPattern): (channels: seq<nat>)
    ensures |channels| == 4
  {
    match pattern
    case Rg => [0, 1, 1, 2]
    case Bg => [2, 1, 1, 0]
    case Gr => [1, 0, 2, 1]
    case Gb => [1, 2, 0, 1]
  }

  function Native(pattern: BayerPattern, x: nat, y: nat): nat {
    Cell(pattern)[y % 2 * 2 + x % 2]
  }

  lemma NativeColor(pattern: BayerPattern, x: nat, y: nat)
    ensures Native(pattern, x, y) == Channel(ColorAt(x, y, pattern))
  {
  }

  lemma SampleOf(raw: seq<nat>, width: nat, height: nat, x: nat, y: nat)
    requires |raw| == width * height && x < width && y < height
    ensures y * width + x < |raw| && PlaneOf(raw, width, height).Sample(x, y) == raw[y * width + x]
  {
    OffsetInside(width, height, x, y);
  }

  /** Every raw sample is kept, as it is, at its own pixel and in the channel of its filter. */
  lemma NativeSampleKept(raw: seq<nat>, width: nat, height: nat, pattern: BayerPattern, x: nat, y: nat)
    requires |raw| == width * height && x < width && y < height
    ensures y * width + x < |raw| && (y * width + x) * 3 + Native(pattern, x, y) < |Full(PlaneOf(raw, width, height), pattern)|
    ensures Full(PlaneOf(raw, width, height), pattern)[(y * width + x) * 3 + Native(pattern, x, y)] == raw[y * width + x]
  {
    NativeColor(pattern, x, y);
    SampleOf(raw, width, height, x, y);
    FullAt(PlaneOf(raw, width, height), pattern, x, y, ColorAt(x, y, pattern));
  }

  /** Inside the image. */
  predicate Interior(plane: Plane, x: nat, y: nat) {
    1 <= x < plane.width - 1 && 1 <= y < plane.height - 1
  }

  function Sides(plane: Plane, x: int, y: int): nat {
    plane.Sample(x - 1, y) + plane.Sample(x + 1, y)
  }

  function Ends(plane: Plane, x: int, y: int): nat {
    plane.Sample(x, y - 1) + plane.Sample(x, y + 1)
  }

  function Corners(plane: Plane, x: int, y: int): nat {
    plane.Sample(x - 1, y - 1) + plane.Sample(x + 1, y - 1) + plane.Sample(x - 1, y + 1) + plane.Sample(x + 1, y + 1)
  }

  lemma NineTerms(f: (int, int) -> nat, x: int, y: int)
    ensures Nine(f, x, y) ==
            f(x - 1, y - 1) + f(x, y - 1) + f(x + 1, y - 1) + f(x - 1, y) + f(x, y) + f(x + 1, y)
            + f(x - 1, y + 1) + f(x, y + 1) + f(x + 1, y + 1)
  {
  }

  /** Which of the places beside, above and below, and at the corners of a pixel show a colour. */
  predicate Shown(x: nat, y: nat, pattern: BayerPattern, color: Color, sides: bool, ends: bool, corners: bool)
    requires x > 0 && y > 0
  {
    && ColorAt(x, y, pattern) != color
    && (ColorAt(x - 1, y, pattern) == color <==> sides) && (ColorAt(x + 1, y, pattern) == color <==> sides)
    && (ColorAt(x, y - 1, pattern) == color <==> ends) && (ColorAt(x, y + 1, pattern) == color <==> ends)
    && (ColorAt(x - 1, y - 1, pattern) == color <==> corners) && (ColorAt(x + 1, y - 1, pattern) == color <==> corners)
    && (ColorAt(x - 1, y + 1, pattern) == color <==> corners) && (ColorAt(x + 1, y + 1, pattern) == color <==> corners)
  }

  lemma SumShown(plane: Plane, x: nat, y: nat, pattern: BayerPattern, color: Color, sides: bool, ends: bool, corners: bool)
    requires Interior(plane, x, y) && Shown(x, y, pattern, color, sides, ends, corners)
    ensures Sum(plane, x, y, pattern, color) ==
            (if sides then Sides(plane, x, y) else 0) + (if ends then Ends(plane, x, y) else 0)
            + (if corners then Corners(plane, x, y) else 0)
    ensures Count(plane, x, y, pattern, color) ==
            (if sides then 2 else 0) + (if ends then 2 else 0) + (if corners then 4 else 0)
  {
    NineTerms(Brightness(plane, pattern, color), x, y);
    NineTerms(Presence(plane, pattern, color), x, y);
  }

  /** A red or blue filter has green ones beside, above and below it and the third colour at its
      corners; a green one has one colour beside it and the other above and below. */
  lemma FiltersAround(x: nat, y: nat, pattern: BayerPattern)
    requires x > 0 && y > 0
    ensures Native(pattern, x, y) != 1 ==>
              && Shown(x, y, pattern, Green, true, true, false)
              && Shown(x, y, pattern, ColorOf(2 - Native(pattern, x, y)), false, false, true)
    ensures Native(pattern, x, y) == 1 ==>
              && Native(pattern, x + 1, y) != 1
              && Shown(x, y, pattern, ColorOf(Native(pattern, x + 1, y)), true, false, false)
              && Shown(x, y, pattern, ColorOf(2 - Native(pattern, x + 1, y)), false, true, false)
  {
    assert (x - 1) % 2 == (x + 1) % 2 == 1 - x % 2 && (y - 1) % 2 == (y + 1) % 2 == 1 - y % 2;
  }

  lemma ValueFromCross(plane: Plane, x: nat, y: nat, pattern: BayerPattern, color: Color)
    requires Interior(plane, x, y) && Shown(x, y, pattern, color, true, true, false)
    ensures Value(plane, x, y, pattern, color) == (Sides(plane, x, y) + Ends(plane, x, y) + 2) / 4
  {
    SumShown(plane, x, y, pattern, color, true, true, false);
  }

  lemma ValueFromCorners(plane: Plane, x: nat, y: nat, pattern: BayerPattern, color: Color)
    requires Interior(plane, x, y) && Shown(x, y, pattern, color, false, false, true)
    ensures Value(plane, x, y, pattern, color) == (Corners(plane, x, y) + 2) / 4
  {
    SumShown(plane, x, y, pattern, color, false, false, true);
  }

  lemma ValueFromSides(plane: Plane, x: nat, y: nat, pattern: BayerPattern, color: Color)
    requires Interior(plane, x, y) && Shown(x, y, pattern, color, true, false, false)
    ensures Value(plane, x, y, pattern, color) == (Sides(plane, x, y) + 1) / 2
  {
    SumShown(plane, x, y, pattern, color, true, false, false);
  }

  lemma ValueFromEnds(plane: Plane, x: nat, y: nat, pattern: BayerPattern, color: Color)
    requires Interior(plane, x, y) && Shown(x, y, pattern, color, false, true, false)
    ensures Value(plane, x, y, pattern, color) == (Ends(plane, x, y) + 1) / 2
  {
    SumShown(plane, x, y, pattern, color, false, true, false);
  }

  /** Inside the image, where red or blue is measured green is the mean of the four samples beside,
      above and below, and the third colour that of the four corners; where green is measured one of
      the others is the mean of the samples beside it, the other of those above and below. Halves are
      rounded up. */
  lemma BilinearInside(plane: Plane, x: nat, y: nat, pattern: BayerPattern)
    requires Interior(plane, x, y)
    ensures Native(pattern, x, y) != 1 ==>
              && Value(plane, x, y, pattern, Green) == (Sides(plane, x, y) + Ends(plane, x, y) + 2) / 4
              && Value(plane, x, y, pattern, ColorOf(2 - Native(pattern, x, y))) == (Corners(plane, x, y) + 2) / 4
    ensures Native(pattern, x, y) == 1 ==>
              var beside := Native(pattern, x + 1, y);
              && beside in {0, 2}
              && Value(plane, x, y, pattern, ColorOf(beside)) == (Sides(plane, x, y) + 1) / 2
              && Value(plane, x, y, pattern, ColorOf(2 - beside)) == (Ends(plane, x, y) + 1) / 2
  {
    FiltersAround(x, y, pattern);
    if Native(pattern, x, y) != 1 {
      ValueFromCross(plane, x, y, pattern, Green);
      ValueFromCorners(plane, x, y, pattern, ColorOf(2 - Native(pattern, x, y)));
    } else {
      ValueFromSides(plane, x, y, pattern, ColorOf(Native(pattern, x + 1, y)));
      ValueFromEnds(plane, x, y, pattern, ColorOf(2 - Native(pattern, x + 1, y)));
    }
  }

  /** Anywhere, a missing colour with neighbours is their mean rounded to the nearest whole number,
      halves up; without any it is the native sample. */
  lemma MeanOfNeighbors(plane: Plane, x: nat, y: nat, pattern: BayerPattern, color: Color)
    requires ColorAt(x, y, pattern) != color
    ensures var sum, count := Sum(plane, x, y, pattern, color), Count(plane, x, y, pattern, color);
            var v := Value(plane, x, y, pattern, color);
            if count == 0 then v == plane.Sample(x, y)
            else 2 * (count * v) <= 2 * sum + count && 2 * sum < 2 * (count * v) + count
  {
    var sum, count := Sum(plane, x, y, pattern, color), Count(plane, x, y, pattern, color);
    if count > 0 {
      DivBounds(sum + count / 2, count);
    }
  }
}
