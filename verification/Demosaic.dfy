/** Bilinear interpolation of a Bayer plane (crates/autopiercam-core/src/image.rs): the full image,
    the preview made directly from the raw samples, and the 16-bit image. Every image is a row-major
    buffer of interleaved red, green and blue. */
module Demosaic {

  import opened Arithmetic
  import opened ImageBuffers
  import opened PreviewGeometry
  import opened SharingTypes

  datatype BayerPattern = Rg | Bg | Gr | Gb

  datatype Color = Red | Green | Blue

  function ColorAt(x: nat, y: nat, pattern: BayerPattern): Color {
    match (pattern, x % 2 == 0, y % 2 == 0)
    case (Rg, true, true) => Red
    case (Gr, false, true) => Red
    case (Rg, false, false) => Blue
    case (Gr, true, false) => Blue
    case (Bg, true, true) => Blue
    case (Gb, false, true) => Blue
    case (Bg, false, false) => Red
    case (Gb, true, false) => Red
    case _ => Green
  }

  /** The place of a colour within an interleaved pixel. */
  function Channel(color: Color): nat {
    match color
    case Red => 0
    case Green => 1
    case Blue => 2
  }

  function ColorOf(channel: nat): Color {
    if channel == 0 then Red else if channel == 1 then Green else Blue
  }

  // ---------------------------------------------------------------- planes

  function Offset(width: nat, x: nat, y: nat): nat {
    y * width + x
  }

  lemma OffsetInside(width: nat, height: nat, x: nat, y: nat)
    requires x < width && y < height
    ensures Offset(width, x, y) < width * height
  {
    MulMonotone(y + 1, height, width);
    assert width * (y + 1) == y * width + width;
  }

  /** A grid of sensor samples. */
  datatype Plane = Plane(width: nat, height: nat, at: (nat, nat) -> nat) {
    predicate Valid() {
      0 < width && 0 < height
    }

    predicate Inside(x: int, y: int) {
      0 <= x < width && 0 <= y < height
    }

    function Sample(x: int, y: int): nat {
      if Inside(x, y) then at(x, y) else 0
    }
  }

  /** The grid that a row-major buffer of samples stands for. */
  function PlaneOf(samples: seq<nat>, width: nat, height: nat): Plane
    requires |samples| == width * height
  {
    Plane(width, height, (x: nat, y: nat) =>
      if x < width && y < height then
        OffsetInside(width, height, x, y);
        samples[Offset(width, x, y)]
      else 0)
  }

  // ---------------------------------------------------------------- one pixel, declaratively

  predicate Contributes(plane: Plane, x: int, y: int, pattern: BayerPattern, color: Color) {
    plane.Inside(x, y) && ColorAt(x, y, pattern) == color
  }

  function Brightness(plane: Plane, pattern: BayerPattern, color: Color): (int, int) -> nat {
    (x, y) => if Contributes(plane, x, y, pattern, color) then plane.Sample(x, y) else 0
  }

  function Presence(plane: Plane, pattern: BayerPattern, color: Color): (int, int) -> nat {
    (x, y) => if Contributes(plane, x, y, pattern, color) then 1 else 0
  }

  /** The sum of `f` at `k` and at both places next to it. */
  function Around(f: int -> nat, k: int): nat {
    f(k - 1) + f(k) + f(k + 1)
  }

  function Part(f: (int, int) -> nat, y: int): int -> nat {
    x => f(x, y)
  }

  function Line(f: (int, int) -> nat, x: int): int -> nat {
    y => Around(Part(f, y), x)
  }

  /** The sum of `f` over the nine places around (x, y). */
  function Nine(f: (int, int) -> nat, x: int, y: int): nat {
    Around(Line(f, x), y)
  }

  /** The sum of the samples of one colour around (x, y), of those that exist. */
  function Sum(plane: Plane, x: int, y: int, pattern: BayerPattern, color: Color): nat {
    Nine(Brightness(plane, pattern, color), x, y)
  }

  /** How many they are. */
  function Count(plane: Plane, x: int, y: int, pattern: BayerPattern, color: Color): nat {
    Nine(Presence(plane, pattern, color), x, y)
  }

  /** The mean rounded half up. */
  function Mean(sum: nat, count: nat): nat
    requires count > 0
  {
    Quotient(sum + count / 2, count)
  }

  /** What stands in for a missing colour: the mean of its neighbours, or the native sample where
      there are none. */
  function Resolved(sum: nat, count: nat, native: nat): nat {
    if count == 0 then native else Mean(sum, count)
  }

  function Value(plane: Plane, x: nat, y: nat, pattern: BayerPattern, color: Color): nat {
    if ColorAt(x, y, pattern) == color then plane.Sample(x, y)
    else Resolved(Sum(plane, x, y, pattern, color), Count(plane, x, y, pattern, color), plane.Sample(x, y))
  }

  // ---------------------------------------------------------------- whole images

  function Column(k: nat, width: nat): nat
    requires width > 0
  {
    k / 3 % width
  }

  function Row(k: nat, width: nat): nat
    requires width > 0
  {
    k / 3 / width
  }

  /** The interleaved buffer whose pixel at (x, y) has `value(x, y, color)` for each colour. */
  function Raster(width: nat, height: nat, value: (nat, nat, Color) -> nat): (rgb: seq<nat>)
    requires width > 0
    ensures |rgb| == width * height * 3
  {
    seq<nat>(width * height * 3, (k: nat) => value(Column(k, width), Row(k, width), ColorOf(k % 3)))
  }

  lemma Unflatten(width: nat, x: nat, y: nat)
    requires x < width
    ensures Offset(width, x, y) % width == x && Offset(width, x, y) / width == y
  {
    var o := Offset(width, x, y);
    assert o == width * y + x;
    DivAtMost(o, width, y);
    DivAtLeast(o, width, y);
  }

  /** Each place of the buffer is the place of exactly the pixel and colour it was computed for. */
  lemma RasterAt(width: nat, height: nat, value: (nat, nat, Color) -> nat, x: nat, y: nat, color: Color)
    requires x < width && y < height
    ensures Offset(width, x, y) * 3 + Channel(color) < width * height * 3
    ensures Raster(width, height, value)[Offset(width, x, y) * 3 + Channel(color)] == value(x, y, color)
  {
    OffsetInside(width, height, x, y);
    Unflatten(width, x, y);
    var k := Offset(width, x, y) * 3 + Channel(color);
    assert k / 3 == Offset(width, x, y) && k % 3 == Channel(color);
    assert Column(k, width) == x && Row(k, width) == y && ColorOf(k % 3) == color;
  }

  function Full(plane: Plane, pattern: BayerPattern): seq<nat>
    requires plane.Valid()
  {
    Raster(plane.width, plane.height, (x, y, color) => Value(plane, x, y, pattern, color))
  }

  function Preview(plane: Plane, pattern: BayerPattern, width: nat, height: nat): seq<nat>
    requires plane.Valid() && width > 0 && height > 0
  {
    Raster(width, height, (x, y, color) =>
      Value(plane, SourceCoordinate(x, plane.width, width), SourceCoordinate(y, plane.height, height), pattern, color))
  }

  // ---------------------------------------------------------------- properties of one pixel

  /** (nx, ny) is one of the samples a missing `color` at (x, y) is averaged from. */
  predicate Neighbor(plane: Plane, x: int, y: int, nx: int, ny: int, pattern: BayerPattern, color: Color) {
    -1 <= nx - x <= 1 && -1 <= ny - y <= 1 && Contributes(plane, nx, ny, pattern, color)
  }

  ghost predicate NeighborsBetween(plane: Plane, x: int, y: int, pattern: BayerPattern, color: Color,
                                   low: nat, high: nat)
  {
    forall nx: int, ny: int | Neighbor(plane, x, y, nx, ny, pattern, color) ::
      low <= plane.Sample(nx, ny) <= high
  }

  /** `sum` adds up `count` samples that all lie between `low` and `high`. */
  predicate Between(sum: nat, count: nat, low: nat, high: nat) {
    Product(low, count) <= sum <= Product(high, count)
  }

  lemma AroundBetween(sum: int -> nat, count: int -> nat, k: int, low: nat, high: nat)
    requires forall i | k - 1 <= i <= k + 1 :: Between(sum(i), count(i), low, high)
    ensures Between(Around(sum, k), Around(count, k), low, high)
  {
    AddsUp(low, count(k - 1), count(k), count(k + 1));
    AddsUp(high, count(k - 1), count(k), count(k + 1));
    assert Between(sum(k - 1), count(k - 1), low, high);
    assert Between(sum(k), count(k), low, high);
    assert Between(sum(k + 1), count(k + 1), low, high);
  }

  lemma AddsUp(n: nat, a: nat, b: nat, c: nat)
    ensures Product(n, a + b + c) == Product(n, a) + Product(n, b) + Product(n, c)
  {
  }

  lemma NeighborhoodBetween(plane: Plane, x: int, y: int, pattern: BayerPattern, color: Color,
                            low: nat, high: nat)
    requires NeighborsBetween(plane, x, y, pattern, color, low, high)
    ensures Between(Sum(plane, x, y, pattern, color), Count(plane, x, y, pattern, color), low, high)
  {
    var sum, count := Brightness(plane, pattern, color), Presence(plane, pattern, color);
    forall ny | y - 1 <= ny <= y + 1
      ensures Between(Line(sum, x)(ny), Line(count, x)(ny), low, high)
    {
      forall nx | x - 1 <= nx <= x + 1
        ensures Between(sum(nx, ny), count(nx, ny), low, high)
      {
        assert Neighbor(plane, x, y, nx, ny, pattern, color) || count(nx, ny) == 0;
      }
      AroundBetween(Part(sum, ny), Part(count, ny), x, low, high);
    }
    AroundBetween(Line(sum, x), Line(count, x), y, low, high);
  }

  lemma ResolvedBetween(sum: nat, count: nat, native: nat, low: nat, high: nat)
    requires Between(sum, count, low, high) && (count == 0 ==> low <= native <= high)
    ensures low <= Resolved(sum, count, native) <= high
  {
    if count > 0 {
      DivAtLeast(sum + count / 2, count, low);
      DivAtMost(sum + count / 2, count, high);
    }
  }

  /** Some 2x2 block of an image at least that large holds (x, y), and a block shows every colour. */
  lemma BlockShowsColor(x: nat, y: nat, otherX: nat, otherY: nat, pattern: BayerPattern, color: Color)
    requires otherX == x + 1 || otherX == x - 1
    requires otherY == y + 1 || otherY == y - 1
    ensures color in {ColorAt(x, y, pattern), ColorAt(otherX, y, pattern),
                      ColorAt(x, otherY, pattern), ColorAt(otherX, otherY, pattern)}
  {
    assert otherX % 2 != x % 2 && otherY % 2 != y % 2;
  }

  lemma AroundPositive(f: int -> nat, k: int)
    ensures Around(f, k) > 0 <==> exists i | k - 1 <= i <= k + 1 :: f(i) > 0
  {
    if Around(f, k) > 0 {
      assert f(k - 1) > 0 || f(k) > 0 || f(k + 1) > 0;
    }
  }

  lemma NeighborCounted(plane: Plane, x: int, y: int, nx: int, ny: int, pattern: BayerPattern, color: Color)
    requires Neighbor(plane, x, y, nx, ny, pattern, color)
    ensures Count(plane, x, y, pattern, color) > 0
  {
    var present := Presence(plane, pattern, color);
    assert Part(present, ny)(nx) > 0;
    AroundPositive(Part(present, ny), x);
    assert Line(present, x)(ny) > 0;
    AroundPositive(Line(present, x), y);
  }

  /** Something is averaged exactly when the place has a neighbour of that colour. */
  lemma NeighborsCounted(plane: Plane, x: int, y: int, pattern: BayerPattern, color: Color)
    ensures Count(plane, x, y, pattern, color) > 0
       <==> exists nx, ny :: Neighbor(plane, x, y, nx, ny, pattern, color)
  {
    if Count(plane, x, y, pattern, color) > 0 {
      var present := Presence(plane, pattern, color);
      AroundPositive(Line(present, x), y);
      var ny :| y - 1 <= ny <= y + 1 && Line(present, x)(ny) > 0;
      AroundPositive(Part(present, ny), x);
      var nx :| x - 1 <= nx <= x + 1 && Part(present, ny)(nx) > 0;
      assert Neighbor(plane, x, y, nx, ny, pattern, color);
    }
    forall nx, ny | Neighbor(plane, x, y, nx, ny, pattern, color)
      ensures Count(plane, x, y, pattern, color) > 0
    {
      NeighborCounted(plane, x, y, nx, ny, pattern, color);
    }
  }

  lemma NeighborsExist(plane: Plane, x: nat, y: nat, pattern: BayerPattern, color: Color)
    requires plane.width >= 2 && plane.height >= 2 && plane.Inside(x, y)
    ensures exists nx, ny :: Neighbor(plane, x, y, nx, ny, pattern, color)
  {
    var ox := if x + 1 < plane.width then x + 1 else x - 1;
    var oy := if y + 1 < plane.height then y + 1 else y - 1;
    BlockShowsColor(x, y, ox, oy, pattern, color);
    assert || Neighbor(plane, x, y, x, y, pattern, color)
           || Neighbor(plane, x, y, ox, y, pattern, color)
           || Neighbor(plane, x, y, x, oy, pattern, color)
           || Neighbor(plane, x, y, ox, oy, pattern, color);
  }

  /** In an image of at least 2x2 every missing colour is averaged from neighbours that exist, and
      the result lies between any bounds those neighbours share. */
  lemma InterpolatedBetweenNeighbors(plane: Plane, x: nat, y: nat, pattern: BayerPattern, color: Color,
                                     low: nat, high: nat)
    requires plane.width >= 2 && plane.height >= 2 && plane.Inside(x, y)
    requires ColorAt(x, y, pattern) != color
    requires NeighborsBetween(plane, x, y, pattern, color, low, high)
    ensures exists nx, ny :: Neighbor(plane, x, y, nx, ny, pattern, color)
    ensures low <= Value(plane, x, y, pattern, color) <= high
  {
    NeighborsExist(plane, x, y, pattern, color);
    NeighborsCounted(plane, x, y, pattern, color);
    NeighborhoodBetween(plane, x, y, pattern, color, low, high);
    ResolvedBetween(Sum(plane, x, y, pattern, color), Count(plane, x, y, pattern, color), plane.Sample(x, y), low, high);
  }

  ghost predicate SamplesBetween(plane: Plane, low: nat, high: nat) {
    forall x: int, y: int | plane.Inside(x, y) :: low <= plane.Sample(x, y) <= high
  }

  lemma PlaneBoundsNeighbors(plane: Plane, x: int, y: int, pattern: BayerPattern, color: Color,
                             low: nat, high: nat)
    requires SamplesBetween(plane, low, high)
    ensures NeighborsBetween(plane, x, y, pattern, color, low, high)
  {
  }

  /** Every output sample lies between any bounds of the input, whatever the size of the image; a
      uniform plane therefore stays uniform and an 8-bit result fits 8 bits. */
  lemma ValueWithinPlane(plane: Plane, x: nat, y: nat, pattern: BayerPattern, color: Color, low: nat, high: nat)
    requires plane.Inside(x, y)
    requires SamplesBetween(plane, low, high)
    ensures low <= Value(plane, x, y, pattern, color) <= high
  {
    PlaneBoundsNeighbors(plane, x, y, pattern, color, low, high);
    NeighborhoodBetween(plane, x, y, pattern, color, low, high);
    ResolvedBetween(Sum(plane, x, y, pattern, color), Count(plane, x, y, pattern, color), plane.Sample(x, y), low, high);
  }

  // ---------------------------------------------------------------- eight bits against sixteen

  /** `wide` adds up `count` samples whose high bytes add up to `high`. */
  predicate Refines(wide: nat, high: nat, count: nat) {
    256 * high <= wide <= 256 * high + 255 * count
  }

  ghost predicate HighBytesOf(high: Plane, wide: Plane) {
    && wide.width == high.width && wide.height == high.height
    && (forall x: int, y: int | wide.Inside(x, y) :: high.Sample(x, y) == wide.Sample(x, y) / 256)
  }

  lemma AroundRefines(wide: int -> nat, high: int -> nat, count: int -> nat, k: int)
    requires forall i :: Refines(wide(i), high(i), count(i))
    ensures Refines(Around(wide, k), Around(high, k), Around(count, k))
  {
    assert Refines(wide(k - 1), high(k - 1), count(k - 1));
    assert Refines(wide(k), high(k), count(k));
    assert Refines(wide(k + 1), high(k + 1), count(k + 1));
  }

  lemma SumRefines(wide: Plane, high: Plane, x: int, y: int, pattern: BayerPattern, color: Color)
    requires HighBytesOf(high, wide)
    ensures Count(wide, x, y, pattern, color) == Count(high, x, y, pattern, color)
    ensures Refines(Sum(wide, x, y, pattern, color), Sum(high, x, y, pattern, color), Count(high, x, y, pattern, color))
  {
    var w, h := Brightness(wide, pattern, color), Brightness(high, pattern, color);
    var n, m := Presence(high, pattern, color), Presence(wide, pattern, color);
    forall ny
      ensures Line(m, x)(ny) == Line(n, x)(ny) && Refines(Line(w, x)(ny), Line(h, x)(ny), Line(n, x)(ny))
    {
      assert forall nx :: Part(m, ny)(nx) == Part(n, ny)(nx);
      AroundRefines(Part(w, ny), Part(h, ny), Part(n, ny), x);
    }
    AroundRefines(Line(w, x), Line(h, x), Line(n, x), y);
  }

  lemma MeanRefines(wide: nat, high: nat, n: nat)
    requires Refines(wide, high, n) && n > 0
    ensures Mean(high, n) - 1 <= Mean(wide, n) / 256 <= Mean(high, n) + 1
  {
    var q, r := Mean(high, n), Mean(wide, n);
    DivBounds(high + n / 2, n);
    DivBounds(wide + n / 2, n);
    assert n * q <= high + n / 2 < n * q + n;
    assert n * r <= wide + n / 2 < n * r + n;
    if q > 0 {
      Spread(n, q, -1);
      DivAtLeast(wide + n / 2, n, 256 * (q - 1));
    }
    Spread(n, q, 2);
    DivAtMost(wide + n / 2, n, 256 * (q + 2) - 1);
  }

  lemma Spread(n: nat, q: nat, d: int)
    ensures n * (256 * (q + d)) == 256 * (n * q) + 256 * d * n
    ensures n * (256 * (q + d) - 1) + n == 256 * (n * q) + 256 * d * n
  {
  }

  lemma ResolvedRefines(wide: nat, high: nat, count: nat, wideNative: nat, highNative: nat)
    requires Refines(wide, high, count) && highNative == wideNative / 256
    ensures var w, h := Resolved(wide, count, wideNative) / 256, Resolved(high, count, highNative);
            h - 1 <= w <= h + 1
  {
    if count > 0 {
      MeanRefines(wide, high, count);
    }
  }

  lemma ValueRefines(wide: Plane, high: Plane, x: nat, y: nat, pattern: BayerPattern, color: Color)
    requires HighBytesOf(high, wide)
    ensures var w, h := Value(wide, x, y, pattern, color) / 256, Value(high, x, y, pattern, color);
            h - 1 <= w <= h + 1 && (ColorAt(x, y, pattern) == color ==> w == h)
  {
    SumRefines(wide, high, x, y, pattern, color);
    ResolvedRefines(Sum(wide, x, y, pattern, color), Sum(high, x, y, pattern, color),
                    Count(high, x, y, pattern, color), wide.Sample(x, y), high.Sample(x, y));
  }

  /** For every image size and Bayer pattern, interpolating the high bytes differs by at most one
      from the high byte of the 16-bit interpolation; native samples do not differ at all. */
  lemma HighBytePathAgrees(raw: seq<byte>, width: nat, height: nat, x: nat, y: nat,
                           pattern: BayerPattern, color: Color)
    requires x < width && y < height && |raw| == width * height * 2
    ensures |Words(raw)| == |HighBytes(raw)| == width * height
    ensures var wide := Value(PlaneOf(Words(raw), width, height), x, y, pattern, color) / 256;
            var high := Value(PlaneOf(HighBytes(raw), width, height), x, y, pattern, color);
            && high - 1 <= wide <= high + 1
            && (ColorAt(x, y, pattern) == color ==> wide == high)
  {
    HighPlane(raw, width, height);
    ValueRefines(PlaneOf(Words(raw), width, height), PlaneOf(HighBytes(raw), width, height), x, y, pattern, color);
  }

  lemma HighPlane(raw: seq<byte>, width: nat, height: nat)
    requires |raw| == width * height * 2
    ensures |Words(raw)| == |HighBytes(raw)| == width * height
    ensures HighBytesOf(PlaneOf(HighBytes(raw), width, height), PlaneOf(Words(raw), width, height))
  {
    forall x: int, y: int | 0 <= x < width && 0 <= y < height
      ensures Offset(width, x, y) < |raw| / 2
    {
      OffsetInside(width, height, x, y);
    }
  }

  // ---------------------------------------------------------------- the preview against the full image

  /** A preview pixel is the pixel of the full-resolution image at its source coordinate, which
      exists; where nothing has to shrink the two images are the same. */
  lemma PreviewSamplesFullImage(plane: Plane, pattern: BayerPattern, width: nat, height: nat,
                                x: nat, y: nat, color: Color)
    requires 0 < width <= plane.width < U32_LIMIT && 0 < height <= plane.height < U32_LIMIT
    requires x < width && y < height
    ensures var i := Offset(width, x, y) * 3 + Channel(color);
            var sourceX, sourceY := SourceCoordinate(x, plane.width, width), SourceCoordinate(y, plane.height, height);
            var j := Offset(plane.width, sourceX, sourceY) * 3 + Channel(color);
            && sourceX < plane.width && sourceY < plane.height
            && i < |Preview(plane, pattern, width, height)| && j < |Full(plane, pattern)|
            && Preview(plane, pattern, width, height)[i] == Full(plane, pattern)[j]
            && (width == plane.width && height == plane.height ==> i == j)
  {
    SourceInRange(x, plane.width, width);
    SourceInRange(y, plane.height, height);
    FullAt(plane, pattern, SourceCoordinate(x, plane.width, width), SourceCoordinate(y, plane.height, height), color);
    PreviewAt(plane, pattern, width, height, x, y, color);
  }

  lemma FullAt(plane: Plane, pattern: BayerPattern, x: nat, y: nat, color: Color)
    requires plane.Inside(x, y)
    ensures Offset(plane.width, x, y) * 3 + Channel(color) < |Full(plane, pattern)|
    ensures Full(plane, pattern)[Offset(plane.width, x, y) * 3 + Channel(color)] == Value(plane, x, y, pattern, color)
  {
    RasterAt(plane.width, plane.height, (x, y, color) => Value(plane, x, y, pattern, color), x, y, color);
  }

  lemma PreviewAt(plane: Plane, pattern: BayerPattern, width: nat, height: nat, x: nat, y: nat, color: Color)
    requires plane.Valid() && x < width && y < height
    ensures Offset(width, x, y) * 3 + Channel(color) < |Preview(plane, pattern, width, height)|
    ensures Preview(plane, pattern, width, height)[Offset(width, x, y) * 3 + Channel(color)] ==
            Value(plane, SourceCoordinate(x, plane.width, width), SourceCoordinate(y, plane.height, height), pattern, color)
  {
    RasterAt(width, height, (x, y, color) =>
      Value(plane, SourceCoordinate(x, plane.width, width), SourceCoordinate(y, plane.height, height), pattern, color),
      x, y, color);
  }

  // ---------------------------------------------------------------- the loops

  /** The part of `Around` at places before `i`. */
  ghost function Before(f: int -> nat, k: int, i: int): nat {
    (if k - 1 < i then f(k - 1) else 0) + (if k < i then f(k) else 0) + (if k + 1 < i then f(k + 1) else 0)
  }

  lemma BeforeStep(f: int -> nat, k: int, i: int)
    requires k - 1 <= i <= k + 1
    ensures Before(f, k, i + 1) == Before(f, k, i) + f(i)
  {
  }

  /** The first and the last place around `k` that exist. */
  function First(k: nat): nat {
    if k == 0 then 0 else k - 1
  }

  function Final(k: nat, extent: nat): int {
    Min(k + 1, extent - 1)
  }

  /** Places outside the image add nothing, so the loop bounds may be clamped to it. */
  lemma BeforeEnds(f: int -> nat, k: nat, extent: nat)
    requires k < extent && f(-1) == 0 && f(extent) == 0
    ensures Before(f, k, First(k)) == 0
    ensures Before(f, k, Final(k, extent) + 1) == Around(f, k)
  {
  }

  method AddLine(plane: Plane, x: nat, y: nat, pattern: BayerPattern, requested: Color, sum0: nat, count0: nat)
    returns (sum: nat, count: nat)
    requires plane.Inside(x, y)
    ensures sum == sum0 + Line(Brightness(plane, pattern, requested), x)(y)
    ensures count == count0 + Line(Presence(plane, pattern, requested), x)(y)
  {
    sum, count := sum0, count0;
    var xMin, xMax := First(x), Final(x, plane.width);
    ghost var bright := Part(Brightness(plane, pattern, requested), y);
    ghost var present := Part(Presence(plane, pattern, requested), y);
    BeforeEnds(bright, x, plane.width);
    BeforeEnds(present, x, plane.width);
    var nx := xMin;
    while nx <= xMax
      invariant xMin <= nx <= xMax + 1
      invariant sum == sum0 + Before(bright, x, nx)
      invariant count == count0 + Before(present, x, nx)
    {
      BeforeStep(bright, x, nx);
      BeforeStep(present, x, nx);
      if ColorAt(nx, y, pattern) == requested {
        sum := sum + plane.at(nx, y);
        count := count + 1;
      }
      nx := nx + 1;
    }
  }

  lemma LineOutside(plane: Plane, x: int, y: int, pattern: BayerPattern, color: Color)
    requires !(0 <= y < plane.height)
    ensures Line(Brightness(plane, pattern, color), x)(y) == 0
    ensures Line(Presence(plane, pattern, color), x)(y) == 0
  {
  }

  /** Lines outside the image add nothing either. */
  lemma LinesEnd(plane: Plane, x: nat, y: nat, pattern: BayerPattern, color: Color)
    requires plane.Inside(x, y)
    ensures var bright, present := Line(Brightness(plane, pattern, color), x), Line(Presence(plane, pattern, color), x);
            && Before(bright, y, First(y)) == 0 == Before(present, y, First(y))
            && Before(bright, y, Final(y, plane.height) + 1) == Around(bright, y)
            && Before(present, y, Final(y, plane.height) + 1) == Around(present, y)
  {
    LineOutside(plane, x, -1, pattern, color);
    LineOutside(plane, x, plane.height, pattern, color);
    BeforeEnds(Line(Brightness(plane, pattern, color), x), y, plane.height);
    BeforeEnds(Line(Presence(plane, pattern, color), x), y, plane.height);
  }

  method AddNeighbors(plane: Plane, x: nat, y: nat, pattern: BayerPattern, requested: Color)
    returns (sum: nat, count: nat)
    requires plane.Inside(x, y)
    ensures sum == Sum(plane, x, y, pattern, requested) && count == Count(plane, x, y, pattern, requested)
  {
    sum, count := 0, 0;
    var yMin, yMax := First(y), Final(y, plane.height);
    ghost var bright := Line(Brightness(plane, pattern, requested), x);
    ghost var present := Line(Presence(plane, pattern, requested), x);
    LinesEnd(plane, x, y, pattern, requested);
    var ny := yMin;
    while ny <= yMax
      invariant yMin <= ny <= yMax + 1
      invariant sum == Before(bright, y, ny) && count == Before(present, y, ny)
    {
      BeforeStep(bright, y, ny);
      BeforeStep(present, y, ny);
      sum, count := AddLine(plane, x, ny, pattern, requested, sum, count);
      ny := ny + 1;
    }
  }

  method NeighborAverage(plane: Plane, x: nat, y: nat, pattern: BayerPattern, requested: Color)
    returns (average: nat)
    requires plane.Inside(x, y)
    ensures average == Resolved(Sum(plane, x, y, pattern, requested), Count(plane, x, y, pattern, requested),
                                plane.Sample(x, y))
  {
    var sum, count := AddNeighbors(plane, x, y, pattern, requested);
    if count == 0 {
      average := plane.at(x, y);
    } else {
      average := Quotient(sum + count / 2, count);
    }
  }

  function Cast(value: nat, modulus: nat): nat
    requires modulus > 0
  {
    value % modulus
  }

  lemma CastKeeps(value: nat, modulus: nat)
    requires value < modulus
    ensures Cast(value, modulus) == value
  {
  }

  /** One colour of one pixel; an average is truncated to the `modulus` values of a sample. */
  method PixelSample(plane: Plane, x: nat, y: nat, pattern: BayerPattern, requested: Color, modulus: nat)
    returns (value: nat)
    requires plane.Inside(x, y) && 0 < modulus && SamplesBetween(plane, 0, modulus - 1)
    ensures value == Value(plane, x, y, pattern, requested) < modulus
  {
    ValueWithinPlane(plane, x, y, pattern, requested, 0, modulus - 1);
    if ColorAt(x, y, pattern) == requested {
      value := plane.at(x, y);
    } else {
      var average := NeighborAverage(plane, x, y, pattern, requested);
      CastKeeps(average, modulus);
      value := Cast(average, modulus);
    }
  }

  /** The interleaved samples of the pixel at (x, y). */
  ghost predicate IsPixel(pixel: seq<nat>, plane: Plane, x: nat, y: nat, pattern: BayerPattern) {
    |pixel| == 3 && forall color :: pixel[Channel(color)] == Value(plane, x, y, pattern, color)
  }

  /** Writes one interleaved pixel. */
  method DemosaicPixel(plane: Plane, x: nat, y: nat, pattern: BayerPattern, modulus: nat,
                       rgb: array<nat>, start: nat, ghost pixel: seq<nat>)
    requires plane.Inside(x, y) && 0 < modulus && SamplesBetween(plane, 0, modulus - 1)
    requires start + 3 <= rgb.Length && IsPixel(pixel, plane, x, y, pattern)
    modifies rgb
    ensures forall k | 0 <= k < rgb.Length ::
      rgb[k] == if start <= k < start + 3 then pixel[k - start] else old(rgb[k])
  {
    var channel := 0;
    while channel < 3
      invariant 0 <= channel <= 3
      invariant forall k | 0 <= k < rgb.Length ::
        rgb[k] == if start <= k < start + channel then pixel[k - start] else old(rgb[k])
    {
      var requested := ColorOf(channel);
      assert Channel(requested) == channel;
      rgb[start + channel] := PixelSample(plane, x, y, pattern, requested, modulus);
      channel := channel + 1;
    }
  }

  lemma OffsetNextRow(width: nat, y: nat)
    ensures Offset(width, width, y) == Offset(width, 0, y + 1)
    ensures Offset(width, 0, y) == width * y
  {
  }

  /** Both buffers agree on every pixel before (x, y) in reading order. */
  ghost predicate AgreeBefore(rgb: array<nat>, expected: seq<nat>, width: nat, x: nat, y: nat)
    reads rgb
    requires rgb.Length == |expected|
  {
    forall k | 0 <= k < Offset(width, x, y) * 3 && k < rgb.Length :: rgb[k] == expected[k]
  }

  /** Fills in the pixel at (x, y) of the output from the plane's pixel at (sourceX, sourceY). */
  method WritePixel(plane: Plane, sourceX: nat, sourceY: nat, pattern: BayerPattern, modulus: nat,
                    rgb: array<nat>, width: nat, x: nat, y: nat, ghost expected: seq<nat>)
    requires plane.Inside(sourceX, sourceY) && 0 < modulus && SamplesBetween(plane, 0, modulus - 1)
    requires rgb.Length == |expected| && PixelAt(expected, width, x, y, plane, sourceX, sourceY, pattern)
    requires AgreeBefore(rgb, expected, width, x, y)
    modifies rgb
    ensures AgreeBefore(rgb, expected, width, x + 1, y)
  {
    var start := Offset(width, x, y) * 3;
    DemosaicPixel(plane, sourceX, sourceY, pattern, modulus, rgb, start, expected[start..start + 3]);
    assert Offset(width, x + 1, y) * 3 == start + 3;
  }

  ghost predicate PixelAt(image: seq<nat>, width: nat, x: nat, y: nat,
                          plane: Plane, sourceX: nat, sourceY: nat, pattern: BayerPattern) {
    var start := Offset(width, x, y) * 3;
    start + 3 <= |image| && IsPixel(image[start..start + 3], plane, sourceX, sourceY, pattern)
  }

  lemma FullPixel(plane: Plane, pattern: BayerPattern, x: nat, y: nat)
    requires plane.Inside(x, y)
    ensures PixelAt(Full(plane, pattern), plane.width, x, y, plane, x, y, pattern)
  {
    FullAt(plane, pattern, x, y, Blue);
    forall color {
      FullAt(plane, pattern, x, y, color);
    }
  }

  lemma PreviewPixel(plane: Plane, pattern: BayerPattern, width: nat, height: nat, x: nat, y: nat)
    requires plane.Valid() && x < width && y < height
    ensures PixelAt(Preview(plane, pattern, width, height), width, x, y, plane,
                    SourceCoordinate(x, plane.width, width), SourceCoordinate(y, plane.height, height), pattern)
  {
    PreviewAt(plane, pattern, width, height, x, y, Blue);
    forall color {
      PreviewAt(plane, pattern, width, height, x, y, color);
    }
  }

  /** The full-resolution image. */
  method FillFull(plane: Plane, pattern: BayerPattern, modulus: nat) returns (image: seq<nat>)
    requires plane.Valid() && 0 < modulus && SamplesBetween(plane, 0, modulus - 1)
    ensures image == Full(plane, pattern)
  {
    ghost var expected := Full(plane, pattern);
    var rgb := new nat[plane.width * plane.height * 3];
    var y := 0;
    while y < plane.height
      invariant 0 <= y <= plane.height
      invariant AgreeBefore(rgb, expected, plane.width, 0, y)
    {
      var x := 0;
      while x < plane.width
        invariant 0 <= x <= plane.width
        invariant AgreeBefore(rgb, expected, plane.width, x, y)
      {
        FullPixel(plane, pattern, x, y);
        WritePixel(plane, x, y, pattern, modulus, rgb, plane.width, x, y, expected);
        x := x + 1;
      }
      OffsetNextRow(plane.width, y);
      y := y + 1;
    }
    OffsetNextRow(plane.width, plane.height);
    image := rgb[..];
  }

  /** The preview, interpolated only where it samples the source. */
  method FillPreview(plane: Plane, pattern: BayerPattern, modulus: nat, width: nat, height: nat)
    returns (image: seq<nat>)
    requires plane.Valid() && 0 < modulus && SamplesBetween(plane, 0, modulus - 1)
    requires 0 < width <= plane.width < U32_LIMIT && 0 < height <= plane.height < U32_LIMIT
    ensures image == Preview(plane, pattern, width, height)
  {
    ghost var expected := Preview(plane, pattern, width, height);
    var rgb := new nat[width * height * 3];
    var y := 0;
    while y < height
      invariant 0 <= y <= height
      invariant AgreeBefore(rgb, expected, width, 0, y)
    {
      var sourceY := SourceCoordinate(y, plane.height, height);
      SourceInRange(y, plane.height, height);
      var x := 0;
      while x < width
        invariant 0 <= x <= width
        invariant AgreeBefore(rgb, expected, width, x, y)
      {
        var sourceX := SourceCoordinate(x, plane.width, width);
        SourceInRange(x, plane.width, width);
        PreviewPixel(plane, pattern, width, height, x, y);
        WritePixel(plane, sourceX, sourceY, pattern, modulus, rgb, width, x, y, expected);
        x := x + 1;
      }
      OffsetNextRow(width, y);
      y := y + 1;
    }
    OffsetNextRow(width, height);
    image := rgb[..];
  }

  // ---------------------------------------------------------------- the entry points

  /** The error for a buffer of `length` bytes meant to hold `width` by `height` samples of
      `size` bytes each, if there is one. */
  function Rejected(length: nat, width: u32, height: u32, size: nat): Option<ImageError> {
    if width * height >= USIZE_LIMIT || width * height * size >= USIZE_LIMIT then Some(DimensionsOverflow)
    else if length != width * height * size then Some(BufferLength(width * height * size, length))
    else if width == 0 || height == 0 then Some(EmptyImage)
    else None
  }

  lemma BytesBetween(samples: seq<nat>, width: nat, height: nat, modulus: nat)
    requires |samples| == width * height && 0 < modulus
    requires forall i :: 0 <= i < |samples| ==> samples[i] < modulus
    ensures SamplesBetween(PlaneOf(samples, width, height), 0, modulus - 1)
  {
    forall x: int, y: int | 0 <= x < width && 0 <= y < height
      ensures Offset(width, x, y) < |samples|
    {
      OffsetInside(width, height, x, y);
    }
  }

  method DemosaicBilinear(raw: seq<byte>, width: u32, height: u32, pattern: BayerPattern)
    returns (r: Result<seq<nat>>)
    ensures var rejected := Rejected(|raw|, width, height, 1);
            r == if rejected.Some? then Err(rejected.value)
                 else if width * height * 3 >= USIZE_LIMIT then Err(DimensionsOverflow)
                 else Ok(Full(PlaneOf(raw, width, height), pattern))
  {
    var rejected := Rejected(|raw|, width, height, 1);
    if rejected.Some? {
      return Err(rejected.value);
    }
    if width * height * 3 >= USIZE_LIMIT {
      return Err(DimensionsOverflow);
    }
    BytesBetween(raw, width, height, 256);
    var image := FillFull(PlaneOf(raw, width, height), pattern, 256);
    r := Ok(image);
  }

  method DemosaicBilinearPreview(raw: seq<byte>, width: u32, height: u32, pattern: BayerPattern,
                                 maxWidth: u32, maxHeight: u32)
    returns (r: Result<(nat, nat, seq<nat>)>)
    ensures var rejected := Rejected(|raw|, width, height, 1);
            r == if rejected.Some? then Err(rejected.value)
                 else if maxWidth == 0 || maxHeight == 0 then Err(InvalidPreviewBounds(maxWidth, maxHeight))
                 else var (w, h) := FitDimensions(width, height, maxWidth, maxHeight);
                      if w * h * 3 >= USIZE_LIMIT then Err(DimensionsOverflow)
                      else Ok((w, h, Preview(PlaneOf(raw, width, height), pattern, w, h)))
  {
    var rejected := Rejected(|raw|, width, height, 1);
    if rejected.Some? {
      return Err(rejected.value);
    }
    if maxWidth == 0 || maxHeight == 0 {
      return Err(InvalidPreviewBounds(maxWidth, maxHeight));
    }
    var (w, h) := FitDimensions(width, height, maxWidth, maxHeight);
    FitIsExact(width, height, maxWidth, maxHeight);
    if w * h * 3 >= USIZE_LIMIT {
      return Err(DimensionsOverflow);
    }
    BytesBetween(raw, width, height, 256);
    var image := FillPreview(PlaneOf(raw, width, height), pattern, 256, w, h);
    r := Ok((w, h, image));
  }

  method DemosaicBilinear16(raw: seq<byte>, width: u32, height: u32, pattern: BayerPattern)
    returns (r: Result<seq<nat>>)
    ensures var rejected := Rejected(|raw|, width, height, 2);
            r == if rejected.Some? then Err(rejected.value)
                 else if width * height * 3 >= USIZE_LIMIT then Err(DimensionsOverflow)
                 else Ok(Full(PlaneOf(Words(raw), width, height), pattern))
  {
    var rejected := Rejected(|raw|, width, height, 2);
    if rejected.Some? {
      return Err(rejected.value);
    }
    if width * height * 3 >= USIZE_LIMIT {
      return Err(DimensionsOverflow);
    }
    BytesBetween(Words(raw), width, height, 65536);
    var image := FillFull(PlaneOf(Words(raw), width, height), pattern, 65536);
    r := Ok(image);
  }
}
