/** Fitting a preview into its bounds and sampling the source for it
    (crates/autopiercam-core/src/image.rs). Extents are 32-bit. */
module PreviewGeometry {

  import opened Arithmetic

  const U32_LIMIT := 0x1_0000_0000

  /** The scaled extent before the conversion to 32 bits and the floor of one. */
  function Rounded(source: nat, otherSource: nat, otherPreview: nat): nat
    requires otherSource > 0
  {
    (source * otherPreview + otherSource / 2) / otherSource
  }

  function ScaledDimension(source: nat, otherSource: nat, otherPreview: nat): nat
    requires otherSource > 0
  {
    Max(Min(Rounded(source, otherSource, otherPreview), U32_LIMIT - 1), 1)
  }

  function FitDimensions(width: nat, height: nat, maxWidth: nat, maxHeight: nat): (fitted: (nat, nat))
    requires width > 0 && height > 0
    ensures maxWidth > 0 && maxHeight > 0 ==> fitted.0 > 0 && fitted.1 > 0
  {
    if width <= maxWidth && height <= maxHeight then (width, height)
    else if maxWidth * height <= maxHeight * width then
      var w := Min(width, maxWidth);
      (w, Min(ScaledDimension(height, width, w), maxHeight))
    else
      var h := Min(height, maxHeight);
      (Min(ScaledDimension(width, height, h), maxWidth), h)
  }

  /** The source coordinate before the conversion to 32 bits and the clamp to the last one. */
  function Centered(coordinate: nat, sourceExtent: nat, previewExtent: nat): nat
    requires previewExtent > 0
  {
    Quotient(Product(coordinate * 2 + 1, sourceExtent), previewExtent * 2)
  }

  function SourceCoordinate(coordinate: nat, sourceExtent: nat, previewExtent: nat): nat
    requires sourceExtent > 0 && previewExtent > 0
  {
    if sourceExtent == previewExtent then coordinate
    else Min(Min(Centered(coordinate, sourceExtent, previewExtent), U32_LIMIT - 1), sourceExtent - 1)
  }

  // ---------------------------------------------------------------- fitting

  /** One side of a scaled image: `p` pixels stand for `b` source pixels, and `a` are to be scaled
      alike into at most `limit`. */
  lemma ScaledSide(a: nat, b: nat, p: nat, limit: nat)
    requires 0 < a < U32_LIMIT && 0 < p < b && 0 < limit && a * p <= limit * b
    ensures Rounded(a, b, p) <= limit && Rounded(a, b, p) <= a
    ensures ScaledDimension(a, b, p) == Max(Rounded(a, b, p), 1)
    ensures 2 * (b * Rounded(a, b, p)) <= 2 * (a * p) + b && 2 * (a * p) <= 2 * (b * Rounded(a, b, p)) + b
  {
    DivBounds(a * p + b / 2, b);
    assert limit * b == b * limit;
    DivAtMost(a * p + b / 2, b, limit);
    MulMonotone(p, b, a);
    assert a * b == b * a;
    DivAtMost(a * p + b / 2, b, a);
  }

  /** When the image does not fit and its width is the tighter side, the width is exceeded. */
  lemma TighterSideExceeds(width: nat, height: nat, maxWidth: nat, maxHeight: nat)
    requires 0 < maxWidth && (width > maxWidth || height > maxHeight)
    requires maxWidth * height <= maxHeight * width
    ensures width > maxWidth
  {
    if width <= maxWidth {
      assert maxWidth * (maxHeight + 1) == maxHeight * maxWidth + maxWidth;
      MulMonotone(width, maxWidth, maxHeight);
      MulMonotone(maxHeight + 1, height, maxWidth);
    }
  }

  /** `p` by `q` stands for `a` by `b` within half a pixel of the exact aspect, or is one pixel. */
  predicate AspectKept(a: nat, b: nat, p: nat, q: nat) {
    || (2 * (a * q) <= 2 * (b * p) + a && 2 * (b * p) <= 2 * (a * q) + a)
    || (q == 1 && 2 * (b * p) < a)
  }

  /** The preview exceeds neither the source nor the bounds, keeps one side of the bounds exactly
      when it has to shrink, and its other side is within half a pixel of the exact aspect unless
      it is forced up to one pixel. None of the final clamps ever binds. */
  lemma FitIsExact(width: nat, height: nat, maxWidth: nat, maxHeight: nat)
    requires 0 < width < U32_LIMIT && 0 < height < U32_LIMIT && 0 < maxWidth && 0 < maxHeight
    ensures var (w, h) := FitDimensions(width, height, maxWidth, maxHeight);
            && 1 <= w <= Min(width, maxWidth) && 1 <= h <= Min(height, maxHeight)
            && (width <= maxWidth && height <= maxHeight ==> (w, h) == (width, height))
            && (width > maxWidth || height > maxHeight ==>
                  || (w == maxWidth && h == Max(Rounded(height, width, w), 1) && AspectKept(width, height, w, h))
                  || (h == maxHeight && w == Max(Rounded(width, height, h), 1) && AspectKept(height, width, h, w)))
  {
    if width > maxWidth || height > maxHeight {
      if maxWidth * height <= maxHeight * width {
        TighterSideExceeds(width, height, maxWidth, maxHeight);
        assert height * maxWidth <= maxHeight * width;
        ScaledSide(height, width, maxWidth, maxHeight);
      } else {
        assert maxHeight * width <= maxWidth * height;
        TighterSideExceeds(height, width, maxHeight, maxWidth);
        assert width * maxHeight <= maxWidth * height;
        ScaledSide(width, height, maxHeight, maxWidth);
      }
    }
  }

  // ---------------------------------------------------------------- sampling

  /** Each preview pixel samples a source pixel that exists, the middle one of its region. */
  lemma SourceInRange(c: nat, sourceExtent: nat, previewExtent: nat)
    requires 0 < previewExtent <= sourceExtent < U32_LIMIT && c < previewExtent
    ensures SourceCoordinate(c, sourceExtent, previewExtent) == Centered(c, sourceExtent, previewExtent) < sourceExtent
  {
    var n := previewExtent * 2;
    MulMonotone(c * 2 + 1, n - 1, sourceExtent);
    assert sourceExtent * (n - 1) == n * (sourceExtent - 1) + n - sourceExtent;
    assert (c * 2 + 1) * sourceExtent < n * (sourceExtent - 1) + n;
    DivAtMost((c * 2 + 1) * sourceExtent, n, sourceExtent - 1);
    if sourceExtent == previewExtent {
      assert (c * 2 + 1) * sourceExtent == n * c + sourceExtent;
      DivAtMost((c * 2 + 1) * sourceExtent, n, c);
      DivAtLeast((c * 2 + 1) * sourceExtent, n, c);
    }
  }

  /** Adding at least one divisor to the dividend moves the quotient on. */
  lemma QuotientMovesOn(x: nat, y: nat, n: nat)
    requires n > 0 && x + n <= y
    ensures x / n < y / n
  {
    DivBounds(x, n);
    assert n * (x / n + 1) == n * (x / n) + n;
    DivAtLeast(y, n, x / n + 1);
  }

  lemma NextProduct(c: nat, extent: nat)
    ensures Product((c + 1) * 2 + 1, extent) == Product(c * 2 + 1, extent) + 2 * extent
  {
  }

  /** Neighbouring preview pixels sample different source pixels, in order. */
  lemma SourceIncreases(c: nat, sourceExtent: nat, previewExtent: nat)
    requires 0 < previewExtent <= sourceExtent < U32_LIMIT && c + 1 < previewExtent
    ensures SourceCoordinate(c, sourceExtent, previewExtent) < SourceCoordinate(c + 1, sourceExtent, previewExtent)
  {
    SourceInRange(c, sourceExtent, previewExtent);
    SourceInRange(c + 1, sourceExtent, previewExtent);
    NextProduct(c, sourceExtent);
    QuotientMovesOn(Product(c * 2 + 1, sourceExtent), Product((c + 1) * 2 + 1, sourceExtent), previewExtent * 2);
  }

  lemma {:induction false} SourceStrictlyIncreases(c: nat, d: nat, sourceExtent: nat, previewExtent: nat)
    requires 0 < previewExtent <= sourceExtent < U32_LIMIT && c < d < previewExtent
    ensures SourceCoordinate(c, sourceExtent, previewExtent) < SourceCoordinate(d, sourceExtent, previewExtent)
  {
    SourceIncreases(d - 1, sourceExtent, previewExtent);
    if c < d - 1 {
      SourceStrictlyIncreases(c, d - 1, sourceExtent, previewExtent);
    }
  }
}
