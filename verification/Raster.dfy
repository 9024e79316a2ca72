/** Admission of a raster: everything that is checked before the encoder adapter may touch its bits. */
module Raster {
  import opened Media

  const MODULUS := 0x1_0000_0000_0000_0000
  const SIZE_MAX := MODULUS - 1
  const UINT32_MAX := 0xFFFF_FFFF

  datatype Quality = Draft | Normal | High

  datatype Raster = Raster(
    width: Size, height: Size, dpi: Word, paintedDpi: Word, pageWidth: Size, pageHeight: Size,
    x: Size, y: Size, printableWidth: Size, printableHeight: Size, stride: Size,
    hasBits: bool, bitsSize: Size, orderKnown: bool, polarityKnown: bool, pages: Word,
    media: Name, mediaWidth: Word, mediaLength: Word, sourceKnown: bool, quality: Quality, density: Word)

  /** Where admission ends: at the adapter, or with one of the reported reasons. */
  datatype Verdict = Encode | Stopped | WrongMedia | Unsupported | TooLarge | Truncated

  /** Arithmetic on size_t, which wraps. */
  function Plus(a: Size, b: Size): Size {
    (a + b) % MODULUS
  }

  function Minus(a: Size, b: Size): Size {
    (a - b) % MODULUS
  }

  function Times(a: Size, b: Size): Size {
    (a * b) % MODULUS
  }

  predicate MatchesMedia(r: Raster) {
    var g := GeometryOf(r.media, r.mediaWidth, r.mediaLength, r.dpi);
    g.Some? && g.value == Geometry(r.pageWidth, r.pageHeight, r.x, r.y, r.printableWidth, r.printableHeight)
  }

  predicate BoxOverflows(r: Raster) {
    || r.x > r.pageWidth || r.printableWidth > Minus(r.pageWidth, r.x)
    || r.y > r.pageHeight || r.printableHeight > Minus(r.pageHeight, r.y)
  }

  predicate QualityValid(r: Raster) {
    1 <= r.density <= 5 && ((r.quality.Normal? && r.dpi == 600) || (r.quality.High? && r.dpi == 1200))
  }

  /** Normal quality is 600 dpi and high quality 1200, each in five densities; there is no draft. */
  lemma QualitiesByName(r: Raster)
    ensures r.quality.Draft? || r.density == 0 || r.density > 5 ==> !QualityValid(r)
    ensures r.quality.Normal? && r.density in {1, 2, 3, 4, 5} ==> (QualityValid(r) <==> r.dpi == 600)
    ensures r.quality.High? && r.density in {1, 2, 3, 4, 5} ==> (QualityValid(r) <==> r.dpi == 1200)
  {
  }

  predicate FormUnsupported(r: Raster) {
    || !r.hasBits || r.width == 0 || r.height == 0 || r.pages == 0 || r.paintedDpi != 600
    || r.pageWidth == 0 || r.pageHeight == 0 || r.pageWidth != r.width || r.pageHeight != r.height
    || r.printableWidth == 0 || r.printableHeight == 0
    || r.printableWidth > r.width || r.printableHeight > r.height || BoxOverflows(r)
    || !r.orderKnown || !r.polarityKnown || !r.sourceKnown || !QualityValid(r)
    || r.width > SIZE_MAX - 7 || r.width > UINT32_MAX - 127 || r.height > UINT32_MAX
    || r.pageWidth > UINT32_MAX || r.pageHeight > UINT32_MAX || r.x > UINT32_MAX || r.y > UINT32_MAX
    || r.stride < Plus(r.width, 7) / 8
  }

  /** The size arithmetic: rows times stride, times pages, against the bits that were supplied. */
  function SizeCheck(height: Size, stride: Size, pages: Word, bitsSize: Size): Verdict
    requires 0 < height && 0 < stride
  {
    if height > SIZE_MAX / stride then TooLarge
    else
      PageBytesDoNotWrap(height, stride);
      var pageBytes := Times(height, stride);
      if pages > SIZE_MAX / pageBytes then TooLarge
      else if bitsSize < Times(pageBytes, pages) then Truncated
      else Encode
  }

  lemma PageBytesDoNotWrap(height: Size, stride: Size)
    requires 0 < height && 0 < stride && height <= SIZE_MAX / stride
    ensures 0 < height * stride == Times(height, stride)
  {
    QuotientBounds(height, stride);
    assert 0 < height * stride;
  }

  function Admit(r: Raster, cancelled: bool): Verdict {
    if cancelled then Stopped
    else if !MatchesMedia(r) then WrongMedia
    else if FormUnsupported(r) then Unsupported
    else SizeCheck(r.height, r.stride, r.pages, r.bitsSize)
  }

  lemma QuotientBounds(a: nat, b: nat)
    requires 0 < b
    ensures a <= SIZE_MAX / b <==> a * b < MODULUS
  {
    var q := SIZE_MAX / b;
    assert q * b <= SIZE_MAX < (q + 1) * b;
    if a <= q {
      assert a * b <= q * b;
    } else {
      assert (q + 1) * b <= a * b;
    }
  }

  /** The separate test for a box that leaves the page can never fire after the media test. */
  lemma BoxTestIsImplied(r: Raster)
    requires MatchesMedia(r)
    ensures !BoxOverflows(r)
    ensures 0 < r.printableWidth <= r.pageWidth && 0 < r.printableHeight <= r.pageHeight
    ensures r.x + r.printableWidth < r.pageWidth && r.y + r.printableHeight < r.pageHeight
    ensures r.pageWidth <= UINT32_MAX - 127 && r.pageHeight <= UINT32_MAX
  {
    BoxIsInsidePage(r.media, r.mediaWidth, r.mediaLength, r.dpi);
  }

  lemma SizeCheckIsExact(height: Size, stride: Size, pages: Word, bitsSize: Size)
    requires 0 < height && 0 < stride && 0 < pages
    ensures SizeCheck(height, stride, pages, bitsSize).Encode? <==> height * stride * pages <= bitsSize
  {
    var exact := height * stride;
    QuotientBounds(height, stride);
    if height <= SIZE_MAX / stride {
      PageBytesDoNotWrap(height, stride);
      QuotientBounds(pages, exact);
      assert pages * exact == exact * pages;
    } else {
      assert exact <= exact * pages;
    }
  }

  /** What the many tests of the form come to, once the media matches. */
  predicate WellDescribed(r: Raster) {
    && r.hasBits && r.pages > 0 && r.paintedDpi == 600
    && r.width == r.pageWidth && r.height == r.pageHeight
    && r.orderKnown && r.polarityKnown && r.sourceKnown && QualityValid(r)
    && r.width <= 8 * r.stride
  }

  lemma FormIsExact(r: Raster)
    requires MatchesMedia(r)
    ensures !FormUnsupported(r) <==> WellDescribed(r)
    ensures WellDescribed(r) ==> 0 < r.height && 0 < r.stride
  {
    BoxTestIsImplied(r);
  }

  /** Admission means exactly that the raster is well described and that its bits are really there: no
      check is passed because a product wrapped, and nothing that fits is refused. */
  lemma AdmissionIsExact(r: Raster)
    ensures Admit(r, false).Encode? <==>
              MatchesMedia(r) && WellDescribed(r) && r.height * r.stride * r.pages <= r.bitsSize
    ensures Admit(r, false).Encode? <==>
              && GeometryOf(r.media, r.mediaWidth, r.mediaLength, r.dpi).Some?
              && GeometryOf(r.media, r.mediaWidth, r.mediaLength, r.dpi).value ==
                 Geometry(r.width, r.height, r.x, r.y, r.printableWidth, r.printableHeight)
              && r.pageWidth == r.width && r.pageHeight == r.height && r.paintedDpi == 600 && r.pages > 0
              && r.orderKnown && r.polarityKnown && r.sourceKnown && r.density in {1, 2, 3, 4, 5}
              && ((r.quality.Normal? && r.dpi == 600) || (r.quality.High? && r.dpi == 1200))
              && r.hasBits && r.width <= 8 * r.stride && r.height * r.stride * r.pages <= r.bitsSize
  {
    if MatchesMedia(r) {
      FormIsExact(r);
      if WellDescribed(r) {
        SizeCheckIsExact(r.height, r.stride, r.pages, r.bitsSize);
      }
    }
  }

  lemma InsideProduct(i: nat, n: nat, rest: nat, unit: nat)
    requires i < n && rest < unit
    ensures i * unit + rest < n * unit
  {
    assert (i + 1) * unit <= n * unit;
  }

  lemma PixelInside(height: nat, stride: nat, pages: nat, page: nat, row: nat, inRow: nat)
    requires page < pages && row < height && inRow < stride
    ensures page * (height * stride) + (row * stride + inRow) < height * stride * pages
  {
    InsideProduct(row, height, inRow, stride);
    InsideProduct(page, pages, row * stride + inRow, height * stride);
    assert pages * (height * stride) == height * stride * pages;
  }

  /** Every pixel of every page of an admitted raster lies within its bits. */
  lemma AdmittedIsIndexSafe(r: Raster, page: nat, row: nat, column: nat)
    requires Admit(r, false).Encode?
    requires page < r.pages && row < r.height && column < r.width
    ensures page * (r.height * r.stride) + (row * r.stride + column / 8) < r.bitsSize
  {
    AdmissionIsExact(r);
    PixelInside(r.height, r.stride, r.pages, page, row, column / 8);
  }
}
