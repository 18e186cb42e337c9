/**
 * The crop/export view: the scaled preview of the stitched image, the crop rectangle
 * mapped back to image coordinates, and the slicing of an image into PDF pages.
 * Lengths are exact reals, an idealisation of the page's floating-point numbers.
 */
module Cropper {
  import opened Common

  /** Width the preview canvas is given, in CSS pixels. */
  const MaxPreviewWidth: real := 700.0
  /** ISO 216 A4 page size in PostScript points. */
  const A4WidthPt: real := 595.28
  const A4HeightPt: real := 841.89

  function MinReal(a: real, b: real): real { if a <= b then a else b }

  // ---------------------------------------------------------------------------
  // Preview and crop rectangle
  // ---------------------------------------------------------------------------

  /** The factor the image is shown at: it fits into 700 px and is never enlarged. */
  function PreviewScale(imageWidth: real): (s: real)
    requires imageWidth > 0.0
    ensures 0.0 < s <= 1.0
    ensures imageWidth * s <= MaxPreviewWidth
    ensures imageWidth <= MaxPreviewWidth ==> s == 1.0
    ensures imageWidth >= MaxPreviewWidth ==> imageWidth * s == MaxPreviewWidth
  {
    var fit := MaxPreviewWidth / imageWidth;
    assert fit * imageWidth == MaxPreviewWidth;
    assert imageWidth <= MaxPreviewWidth ==> fit >= 1.0 by {
      if imageWidth <= MaxPreviewWidth && fit < 1.0 { MulRealStrict(fit, 1.0, imageWidth); }
    }
    MinReal(fit, 1.0)
  }

  datatype Rect = Rect(left: real, top: real, width: real, height: real)

  /** A rectangle of the image as it appears on a preview shown at factor zoom. */
  function Scaled(r: Rect, zoom: real): Rect
  {
    Rect(r.left * zoom, r.top * zoom, r.width * zoom, r.height * zoom)
  }

  /**
   * The preview rectangle r in the image's own coordinates (each length divided by the
   * zoom): the rectangle whose preview is r.
   */
  function Unscaled(r: Rect, zoom: real): (u: Rect)
    requires zoom > 0.0
    ensures Scaled(u, zoom) == r
  {
    Rect(r.left / zoom, r.top / zoom, r.width / zoom, r.height / zoom)
  }

  /** Selecting on a preview at any zoom and unscaling gives the region selected at zoom 1. */
  lemma UnscaleRoundTrip(r: Rect, zoom: real)
    requires zoom > 0.0
    ensures Unscaled(Scaled(r, zoom), zoom) == r
  {
    var u := Unscaled(Scaled(r, zoom), zoom);
    assert u.left == r.left * zoom / zoom == r.left;
    assert u.top == r.top * zoom / zoom == r.top;
    assert u.width == r.width * zoom / zoom == r.width;
    assert u.height == r.height * zoom / zoom == r.height;
  }

  /** A selection of (50, 50, 100, 80) on a half-size preview is (100, 100, 200, 160) of the image. */
  lemma ExampleUnscale()
    ensures Unscaled(Rect(50.0, 50.0, 100.0, 80.0), 0.5) == Rect(100.0, 100.0, 200.0, 160.0)
  {
  }

  /** The initial crop rectangle as the page creates it: the whole preview canvas, 700 px wide. */
  function InitialCropAsWritten(imageWidth: real, imageHeight: real): Rect
    requires imageWidth > 0.0
  {
    Rect(0.0, 0.0, MaxPreviewWidth, imageHeight * PreviewScale(imageWidth))
  }

  /**
   * For every image narrower than the canvas, the initial crop rectangle reaches past the
   * image's right edge: unscaled it is 700 px wide, wider than the image (a 500 px image
   * gets a 700 px crop).
   */
  lemma InitialCropOverhangsNarrowImage(imageWidth: real, imageHeight: real)
    requires 0.0 < imageWidth < MaxPreviewWidth
    ensures Unscaled(InitialCropAsWritten(imageWidth, imageHeight), PreviewScale(imageWidth)).width == MaxPreviewWidth
    ensures Unscaled(InitialCropAsWritten(imageWidth, imageHeight), PreviewScale(imageWidth)).width > imageWidth
  {
    assert PreviewScale(imageWidth) == 1.0;
  }

  /**
   * The initial crop rectangle that covers exactly the displayed image; unscaled it is the
   * whole image, at every image width.
   */
  function InitialCrop(imageWidth: real, imageHeight: real): (r: Rect)
    requires imageWidth > 0.0
    ensures r.left == 0.0 && r.top == 0.0
    ensures r.width <= MaxPreviewWidth
    ensures r.height == imageHeight * PreviewScale(imageWidth)
    ensures Unscaled(r, PreviewScale(imageWidth)) == Rect(0.0, 0.0, imageWidth, imageHeight)
  {
    var s := PreviewScale(imageWidth);
    var r := Rect(0.0, 0.0, imageWidth * s, imageHeight * s);
    assert Scaled(Rect(0.0, 0.0, imageWidth, imageHeight), s) == r;
    UnscaleRoundTrip(Rect(0.0, 0.0, imageWidth, imageHeight), s);
    r
  }

  /** For images at least 700 px wide the corrected rectangle is the one the page creates. */
  lemma InitialCropAgreesOnWideImages(imageWidth: real, imageHeight: real)
    requires imageWidth >= MaxPreviewWidth
    ensures InitialCrop(imageWidth, imageHeight) == InitialCropAsWritten(imageWidth, imageHeight)
  {
  }

  // ---------------------------------------------------------------------------
  // PDF pagination
  // ---------------------------------------------------------------------------

  /** The image height, in image pixels, that fills one page once the width fits the page. */
  function PageHeightPx(imageWidth: real, pageWidthPt: real, pageHeightPt: real): (p: real)
    requires imageWidth > 0.0 && pageWidthPt > 0.0 && pageHeightPt > 0.0
    ensures p > 0.0
    ensures p * pageWidthPt / imageWidth == pageHeightPt
  {
    var scale := pageWidthPt / imageWidth;
    assert pageHeightPt / scale * pageWidthPt / imageWidth == pageHeightPt / scale * scale;
    pageHeightPt / scale
  }

  /** The least integer not below x. */
  function Ceil(x: real): (n: int)
    ensures (n - 1) as real < x <= n as real
    ensures x >= 0.0 ==> n >= 0
    ensures x == 0.0 ==> n == 0
  {
    if x.Floor as real == x then x.Floor else x.Floor + 1
  }

  /** The number of pages: enough page-high slices to hold the image, and not one more. */
  function TotalPages(imageWidth: real, imageHeight: real, pageWidthPt: real, pageHeightPt: real): (n: nat)
    requires imageWidth > 0.0 && imageHeight >= 0.0 && pageWidthPt > 0.0 && pageHeightPt > 0.0
    ensures var p := PageHeightPx(imageWidth, pageWidthPt, pageHeightPt);
            (n as real - 1.0) * p < imageHeight <= n as real * p
    ensures n == 0 <==> imageHeight == 0.0
  {
    var p := PageHeightPx(imageWidth, pageWidthPt, pageHeightPt);
    var x := imageHeight / p;
    var n := Ceil(x);
    CeilScaled(x, n, p, imageHeight);
    n
  }

  /** Scaling the bounds n - 1 < x <= n of a ceiling by a positive p. */
  lemma CeilScaled(x: real, n: int, p: real, h: real)
    requires p > 0.0 && x == h / p && (n - 1) as real < x <= n as real
    ensures (n as real - 1.0) * p < h <= n as real * p
  {
    assert x * p == h;
    MulRealMonotone(x, n as real, p);
    MulRealStrict(n as real - 1.0, x, p);
  }

  lemma MulRealMonotone(a: real, b: real, p: real)
    requires a <= b && p > 0.0
    ensures a * p <= b * p
  {
    assert b * p - a * p == (b - a) * p;
  }

  lemma MulRealStrict(a: real, b: real, p: real)
    requires a < b && p > 0.0
    ensures a * p < b * p
  {
    assert b * p - a * p == (b - a) * p;
  }

  /** Where slice i starts in the image. */
  function SliceY(i: nat, pageHeightPx: real): real
  {
    i as real * pageHeightPx
  }

  /** The height of slice i: a full page, or what is left of the image. */
  function SliceHeight(i: nat, pageHeightPx: real, imageHeight: real): (h: real)
    ensures h <= pageHeightPx && SliceY(i, pageHeightPx) + h <= imageHeight
    ensures h == pageHeightPx || SliceY(i, pageHeightPx) + h == imageHeight
  {
    MinReal(pageHeightPx, imageHeight - SliceY(i, pageHeightPx))
  }

  /** The height, in points, at which a slice is placed on its page (the width fills the page). */
  function DisplayHeight(sliceHeight: real, pageWidthPt: real, imageWidth: real): (d: real)
    requires imageWidth > 0.0
    ensures d * imageWidth == sliceHeight * pageWidthPt
  {
    sliceHeight * pageWidthPt / imageWidth
  }

  /**
   * Every slice has positive height and stays inside the image; each but the last is a
   * full page, and the last is the remainder.
   */
  lemma SliceBounds(i: nat, imageWidth: real, imageHeight: real, pageWidthPt: real, pageHeightPt: real)
    requires imageWidth > 0.0 && imageHeight >= 0.0 && pageWidthPt > 0.0 && pageHeightPt > 0.0
    requires i < TotalPages(imageWidth, imageHeight, pageWidthPt, pageHeightPt)
    ensures var p := PageHeightPx(imageWidth, pageWidthPt, pageHeightPt);
            var n := TotalPages(imageWidth, imageHeight, pageWidthPt, pageHeightPt);
            && 0.0 < SliceHeight(i, p, imageHeight) <= p
            && SliceY(i, p) + SliceHeight(i, p, imageHeight) <= imageHeight
            && (i < n - 1 ==> SliceHeight(i, p, imageHeight) == p)
            && (i == n - 1 ==> SliceHeight(i, p, imageHeight) == imageHeight - SliceY(i, p))
  {
    var p := PageHeightPx(imageWidth, pageWidthPt, pageHeightPt);
    var n := TotalPages(imageWidth, imageHeight, pageWidthPt, pageHeightPt);
    MulRealMonotone(i as real, n as real - 1.0, p);
    if i < n - 1 {
      FullSlice(i, n, p, imageHeight);
      MulRealMonotone(i as real + 1.0, n as real - 1.0, p);
      assert (i as real + 1.0) * p == i as real * p + p;
    } else {
      assert (n as real - 1.0) * p + p == n as real * p;
    }
  }

  /** Each slice starts where the one before it ends. */
  lemma SlicesContiguous(i: nat, imageWidth: real, imageHeight: real, pageWidthPt: real, pageHeightPt: real)
    requires imageWidth > 0.0 && imageHeight >= 0.0 && pageWidthPt > 0.0 && pageHeightPt > 0.0
    requires i + 1 < TotalPages(imageWidth, imageHeight, pageWidthPt, pageHeightPt)
    ensures var p := PageHeightPx(imageWidth, pageWidthPt, pageHeightPt);
            SliceY(i + 1, p) == SliceY(i, p) + SliceHeight(i, p, imageHeight)
  {
    var p := PageHeightPx(imageWidth, pageWidthPt, pageHeightPt);
    SliceBounds(i, imageWidth, imageHeight, pageWidthPt, pageHeightPt);
    assert (i as real + 1.0) * p == i as real * p + p;
  }

  /** The summed height of the first k slices. */
  function SlicesTotal(k: nat, pageHeightPx: real, imageHeight: real): real
  {
    if k == 0 then 0.0 else SlicesTotal(k - 1, pageHeightPx, imageHeight) + SliceHeight(k - 1, pageHeightPx, imageHeight)
  }

  /** The slices of all pages together are exactly the image's height. */
  lemma SlicesCoverImage(k: nat, imageWidth: real, imageHeight: real, pageWidthPt: real, pageHeightPt: real)
    requires imageWidth > 0.0 && imageHeight >= 0.0 && pageWidthPt > 0.0 && pageHeightPt > 0.0
    requires k <= TotalPages(imageWidth, imageHeight, pageWidthPt, pageHeightPt)
    ensures var p := PageHeightPx(imageWidth, pageWidthPt, pageHeightPt);
            var n := TotalPages(imageWidth, imageHeight, pageWidthPt, pageHeightPt);
            SlicesTotal(k, p, imageHeight) == if k < n then SliceY(k, p) else imageHeight
  {
    var p := PageHeightPx(imageWidth, pageWidthPt, pageHeightPt);
    var n := TotalPages(imageWidth, imageHeight, pageWidthPt, pageHeightPt);
    SlicesSum(k, n, p, imageHeight);
  }

  /** SlicesCoverImage for any page height p and page count n with (n - 1) * p < h <= n * p. */
  lemma {:induction false} SlicesSum(k: nat, n: nat, p: real, h: real)
    requires p > 0.0 && h >= 0.0 && (n as real - 1.0) * p < h <= n as real * p && k <= n
    ensures SlicesTotal(k, p, h) == if k < n then SliceY(k, p) else h
  {
    if k > 0 {
      SlicesSum(k - 1, n, p, h);
      SliceYStep(k - 1, p);
      if k < n {
        FullSlice(k - 1, n, p, h);
      } else {
        LastSlice(n, p, h);
      }
    }
  }

  lemma SliceYStep(i: nat, p: real)
    ensures SliceY(i + 1, p) == SliceY(i, p) + p
  {
    assert (i + 1) as real * p == i as real * p + p;
  }

  /** Every slice before the last is a full page. */
  lemma FullSlice(i: nat, n: nat, p: real, h: real)
    requires p > 0.0 && (n as real - 1.0) * p < h && i + 1 < n
    ensures SliceHeight(i, p, h) == p
  {
    MulRealMonotone((i + 1) as real, n as real - 1.0, p);
    SliceYStep(i, p);
  }

  /** The last slice is what remains of the image. */
  lemma LastSlice(n: nat, p: real, h: real)
    requires p > 0.0 && h <= n as real * p && n > 0
    ensures SliceHeight(n - 1, p, h) == h - SliceY(n - 1, p)
  {
    SliceYStep(n - 1, p);
  }

  /**
   * On its page a slice is at most a page high, a full slice exactly fills the page,
   * and every slice is visible.
   */
  lemma DisplayHeightFitsPage(i: nat, imageWidth: real, imageHeight: real, pageWidthPt: real, pageHeightPt: real)
    requires imageWidth > 0.0 && imageHeight >= 0.0 && pageWidthPt > 0.0 && pageHeightPt > 0.0
    requires i < TotalPages(imageWidth, imageHeight, pageWidthPt, pageHeightPt)
    ensures var p := PageHeightPx(imageWidth, pageWidthPt, pageHeightPt);
            var d := DisplayHeight(SliceHeight(i, p, imageHeight), pageWidthPt, imageWidth);
            && 0.0 < d <= pageHeightPt
            && (SliceHeight(i, p, imageHeight) == p ==> d == pageHeightPt)
  {
    var p := PageHeightPx(imageWidth, pageWidthPt, pageHeightPt);
    SliceBounds(i, imageWidth, imageHeight, pageWidthPt, pageHeightPt);
    DisplayHeightMonotone(SliceHeight(i, p, imageHeight), p, pageWidthPt, imageWidth);
  }

  /** A slice no higher than p is displayed no higher than p is. */
  lemma DisplayHeightMonotone(h: real, p: real, pageWidthPt: real, imageWidth: real)
    requires 0.0 < h <= p && pageWidthPt > 0.0 && imageWidth > 0.0
    ensures 0.0 < DisplayHeight(h, pageWidthPt, imageWidth) <= DisplayHeight(p, pageWidthPt, imageWidth)
  {
    var k := pageWidthPt / imageWidth;
    assert DisplayHeight(h, pageWidthPt, imageWidth) == h * k;
    assert DisplayHeight(p, pageWidthPt, imageWidth) == p * k;
    MulRealMonotone(h, p, k);
    MulRealStrict(0.0, h, k);
  }

  /** One addImage call: the slice starting at sliceY, placed at the top of page `page`. */
  datatype PlacedImage = PlacedImage(page: nat, sliceY: real, sliceHeight: real, width: real, height: real)

  /** What addPagesToPDF places for slice i, the first slice going on page `first`. */
  function Placement(first: nat, i: nat, imageWidth: real, imageHeight: real, pageWidthPt: real, pageHeightPt: real): PlacedImage
    requires imageWidth > 0.0 && pageWidthPt > 0.0 && pageHeightPt > 0.0
  {
    var p := PageHeightPx(imageWidth, pageWidthPt, pageHeightPt);
    var h := SliceHeight(i, p, imageHeight);
    PlacedImage(first + i, SliceY(i, p), h, pageWidthPt, DisplayHeight(h, pageWidthPt, imageWidth))
  }

  function Placements(first: nat, k: nat, imageWidth: real, imageHeight: real, pageWidthPt: real, pageHeightPt: real): (r: seq<PlacedImage>)
    requires imageWidth > 0.0 && pageWidthPt > 0.0 && pageHeightPt > 0.0
    ensures |r| == k
    ensures forall i :: 0 <= i < k ==> r[i] == Placement(first, i, imageWidth, imageHeight, pageWidthPt, pageHeightPt)
  {
    if k == 0 then []
    else Placements(first, k - 1, imageWidth, imageHeight, pageWidthPt, pageHeightPt)
         + [Placement(first, k - 1, imageWidth, imageHeight, pageWidthPt, pageHeightPt)]
  }

  /** The PDF document: its page count and the images placed on its pages. */
  class PdfDocument {
    var pageCount: nat
    var images: seq<PlacedImage>

    /** A new document has one blank page. */
    constructor ()
      ensures pageCount == 1 && images == []
    {
      pageCount := 1;
      images := [];
    }

    method AddPage()
      modifies this
      ensures pageCount == old(pageCount) + 1 && images == old(images)
    {
      pageCount := pageCount + 1;
    }

    method AddImage(image: PlacedImage)
      modifies this
      ensures images == old(images) + [image] && pageCount == old(pageCount)
    {
      images := images + [image];
    }
  }

  /**
   * addPagesToPDF: slice the image into page-high bands and place each, scaled to the
   * page width, on its own page; a page is added before every slice but the first,
   * which goes on the document's current page.
   */
  method AddPagesToPdf(pdf: PdfDocument, imageWidth: real, imageHeight: real, pageWidthPt: real, pageHeightPt: real)
    requires imageWidth > 0.0 && imageHeight >= 0.0 && pageWidthPt > 0.0 && pageHeightPt > 0.0
    requires pdf.pageCount >= 1
    modifies pdf
    ensures var n := TotalPages(imageWidth, imageHeight, pageWidthPt, pageHeightPt);
            && pdf.pageCount == old(pdf.pageCount) + (if n == 0 then 0 else n - 1)
            && pdf.images == old(pdf.images) + Placements(old(pdf.pageCount) - 1, n, imageWidth, imageHeight, pageWidthPt, pageHeightPt)
  {
    var first: nat := pdf.pageCount - 1;
    var scale := pageWidthPt / imageWidth;
    var pageHeightPx := pageHeightPt / scale;
    var totalPages := Ceil(imageHeight / pageHeightPx);
    assert pageHeightPx == PageHeightPx(imageWidth, pageWidthPt, pageHeightPt);
    assert totalPages == TotalPages(imageWidth, imageHeight, pageWidthPt, pageHeightPt);
    for i := 0 to totalPages
      invariant pdf.pageCount == old(pdf.pageCount) + (if i == 0 then 0 else i - 1)
      invariant pdf.images == old(pdf.images) + Placements(first, i, imageWidth, imageHeight, pageWidthPt, pageHeightPt)
    {
      var sliceY := SliceY(i, pageHeightPx);
      var sliceHeightPx := SliceHeight(i, pageHeightPx, imageHeight);
      if i > 0 {
        pdf.AddPage();
      }
      var displayHeightPt := DisplayHeight(sliceHeightPx, pageWidthPt, imageWidth);
      assert pdf.pageCount - 1 == first + i;
      pdf.AddImage(PlacedImage(pdf.pageCount - 1, sliceY, sliceHeightPx, pageWidthPt, displayHeightPt));
      assert PlacedImage(first + i, sliceY, sliceHeightPx, pageWidthPt, displayHeightPt)
          == Placement(first, i, imageWidth, imageHeight, pageWidthPt, pageHeightPt);
    }
  }

  /** A fresh document filled by AddPagesToPdf has one page per slice, and at least one. */
  method NewPaginatedPdf(imageWidth: real, imageHeight: real) returns (pdf: PdfDocument)
    requires imageWidth > 0.0 && imageHeight >= 0.0
    ensures fresh(pdf)
    ensures var n := TotalPages(imageWidth, imageHeight, A4WidthPt, A4HeightPt);
            && pdf.pageCount == (if n == 0 then 1 else n)
            && pdf.images == Placements(0, n, imageWidth, imageHeight, A4WidthPt, A4HeightPt)
  {
    pdf := new PdfDocument();
    AddPagesToPdf(pdf, imageWidth, imageHeight, A4WidthPt, A4HeightPt);
  }

  // ---------------------------------------------------------------------------
  // The view's state and its export handlers
  // ---------------------------------------------------------------------------

  /** The background image: its natural size and the zoom it is shown at. */
  datatype Preview = Preview(naturalWidth: real, naturalHeight: real, zoom: real)

  class CropperPage {
    var fullImage: Option<string>
    var fabricImage: Option<Preview>
    var cropRect: Option<Rect>
    var canvasWidth: real
    var canvasHeight: real

    ghost predicate Valid()
      reads this
    {
      && (fabricImage.Some? ==>
            var img := fabricImage.value;
            && fullImage.Some?
            && img.naturalWidth > 0.0 && img.naturalHeight >= 0.0
            && img.zoom == PreviewScale(img.naturalWidth)
            && canvasWidth == MaxPreviewWidth
            && canvasHeight == img.naturalHeight * img.zoom)
      && (cropRect.Some? ==> fabricImage.Some? && cropRect.value.width > 0.0 && cropRect.value.height >= 0.0)
    }

    constructor ()
      ensures Valid()
      ensures fullImage == None && fabricImage == None && cropRect == None
    {
      fullImage, fabricImage, cropRect := None, None, None;
      canvasWidth, canvasHeight := 0.0, 0.0;
    }

    /**
     * Loading the stored image: without one, an alert and nothing else; otherwise the
     * preview is shown at PreviewScale on a 700 px canvas and the crop rectangle covers
     * the displayed image (the corrected InitialCrop, not the page's 700 px wide one).
     */
    method Load(stored: Option<string>, imageWidth: real, imageHeight: real) returns (loaded: bool)
      requires Valid()
      requires imageWidth > 0.0 && imageHeight >= 0.0
      modifies this
      ensures Valid()
      ensures loaded <==> stored.Some? && stored.value != ""
      ensures !loaded ==> unchanged(this)
      ensures loaded ==>
                && fullImage == stored
                && fabricImage == Some(Preview(imageWidth, imageHeight, PreviewScale(imageWidth)))
                && canvasWidth == MaxPreviewWidth
                && canvasHeight == imageHeight * PreviewScale(imageWidth)
                && cropRect == Some(InitialCrop(imageWidth, imageHeight))
    {
      if stored.None? || stored.value == "" {
        return false;
      }
      fullImage := stored;
      var scale := PreviewScale(imageWidth);
      fabricImage := Some(Preview(imageWidth, imageHeight, scale));
      canvasWidth := MaxPreviewWidth;
      canvasHeight := imageHeight * scale;
      cropRect := Some(InitialCrop(imageWidth, imageHeight));
      loaded := true;
    }

    /** The user moving or resizing the crop rectangle on the canvas. */
    method AdjustCrop(r: Rect)
      requires Valid()
      requires r.width > 0.0 && r.height >= 0.0
      modifies this
      ensures Valid()
      ensures cropRect == if old(cropRect).Some? then Some(r) else None
      ensures fullImage == old(fullImage) && fabricImage == old(fabricImage)
      ensures canvasWidth == old(canvasWidth) && canvasHeight == old(canvasHeight)
    {
      if cropRect.Some? {
        cropRect := Some(r);
      }
    }

    /** The crop rectangle in image pixels, or None (an alert) before the image is loaded. */
    function CropInImage(): (r: Option<Rect>)
      reads this
      requires Valid()
      ensures r.Some? <==> fabricImage.Some? && cropRect.Some?
      ensures r.Some? ==> Scaled(r.value, fabricImage.value.zoom) == cropRect.value
      ensures r.Some? ==> r.value.width > 0.0 && r.value.height >= 0.0
    {
      if fabricImage.None? || cropRect.None? then None
      else Some(Unscaled(cropRect.value, fabricImage.value.zoom))
    }

    /** The cropped-PNG export: the region of the image it copies. */
    method CropRegion() returns (region: Option<Rect>)
      requires Valid()
      ensures region == CropInImage()
    {
      if fabricImage.None? || cropRect.None? {
        return None;
      }
      var zoom := fabricImage.value.zoom;
      var c := cropRect.value;
      region := Some(Rect(c.left / zoom, c.top / zoom, c.width / zoom, c.height / zoom));
    }

    /** The cropped-PDF export: the same region as the PNG export, paginated onto A4 pages. */
    method CroppedPdf() returns (region: Option<Rect>, pdf: PdfDocument?)
      requires Valid()
      ensures region == CropInImage()
      ensures region.None? <==> pdf == null
      ensures region.Some? ==>
                var n := TotalPages(region.value.width, region.value.height, A4WidthPt, A4HeightPt);
                && fresh(pdf)
                && pdf.pageCount == (if n == 0 then 1 else n)
                && pdf.images == Placements(0, n, region.value.width, region.value.height, A4WidthPt, A4HeightPt)
    {
      if fabricImage.None? || cropRect.None? {
        return None, null;
      }
      var zoom := fabricImage.value.zoom;
      var c := cropRect.value;
      var width := c.width / zoom;
      var height := c.height / zoom;
      region := Some(Rect(c.left / zoom, c.top / zoom, width, height));
      pdf := NewPaginatedPdf(width, height);
    }

    /** The full-PNG export: the stored image itself, or None (an alert) when there is none. */
    method FullPng() returns (href: Option<string>)
      requires Valid()
      ensures href == fullImage
      ensures fabricImage.Some? ==> href.Some?
    {
      href := fullImage;
    }

    /**
     * The full-PDF export: the stored image, decoded to its natural size, paginated onto
     * A4 pages; nothing (an alert) when there is no stored image.
     */
    method FullPdf(naturalWidth: real, naturalHeight: real) returns (pdf: PdfDocument?)
      requires Valid()
      requires naturalWidth > 0.0 && naturalHeight >= 0.0
      ensures pdf == null <==> fullImage.None?
      ensures pdf != null ==>
                var n := TotalPages(naturalWidth, naturalHeight, A4WidthPt, A4HeightPt);
                && fresh(pdf)
                && pdf.pageCount == (if n == 0 then 1 else n)
                && pdf.images == Placements(0, n, naturalWidth, naturalHeight, A4WidthPt, A4HeightPt)
    {
      if fullImage.None? {
        return null;
      }
      pdf := NewPaginatedPdf(naturalWidth, naturalHeight);
    }
  }
}
