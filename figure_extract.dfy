/**
 * Figure extraction: the scan over the first pages of a document that keeps
 * each embedded image at most once, drops images that are not placed on the
 * page or whose first placement is smaller than the minimum area, and
 * returns the rest in page order with their bbox, area and lower-cased
 * extension.
 *
 * PyMuPDF and Pillow are inputs: each page's image list, where each xref is
 * placed on the page, what extracting an xref gives, and whether Pillow can
 * decode the bytes. The decoded image is represented by the bytes it was
 * decoded from.
 */
module FigureExtract {
  import opened Wrappers
  import opened Text
  import opened Utils
  import Schema
  import PdfText

  type Bytes = seq<bv8>

  const MinFigureAreaDefault: real := 1000.0

  /** What doc.extract_image(xref) gave: an empty dictionary, or the image bytes and extension. */
  datatype Extraction = EmptyDict | Dict(image: Option<Bytes>, ext: Option<string>, decodes: bool)

  /** A page: the xrefs of page.get_images, and the rectangles page.get_image_rects gives per xref (absent: none). */
  datatype FigurePage = FigurePage(images: seq<int>, rects: map<int, seq<PdfText.Quad>>)

  /**
   * One result dictionary: page_number, bbox, area, image and ext. The xref
   * is carried along so that uniqueness can be stated; it is not a key of the
   * dictionary.
   */
  datatype Figure = Figure(pageNumber: int, bbox: Schema.Rect, area: real, image: Bytes, ext: string, xref: int)

  /** The last page scanned: min(page_count, max_pages) when max_pages is truthy, else page_count. */
  function LastPage(pageCount: int, maxPages: Option<int>): (last: int)
    ensures last <= pageCount
    ensures maxPages.None? || maxPages.value == 0 ==> last == pageCount
    ensures maxPages.Some? && maxPages.value != 0 ==> last <= maxPages.value
    ensures maxPages.Some? && maxPages.value != 0 && maxPages.value <= pageCount ==> last == maxPages.value
  {
    if maxPages.Some? && maxPages.value != 0 then
      (if pageCount <= maxPages.value then pageCount else maxPages.value)
    else pageCount
  }

  function RectsOf(page: FigurePage, xref: int): seq<PdfText.Quad> {
    if xref in page.rects then page.rects[xref] else []
  }

  function AreaOf(q: PdfText.Quad): real {
    var r := PdfText.RectOf(q);
    r.w * r.h
  }

  /** The extension as returned: lower-cased, "png" when missing or empty. */
  function ExtOf(ext: Option<string>): (e: string)
    ensures Lower(e) == e
    ensures ext.None? || ext.value == [] ==> e == "png"
  {
    var raw := if ext.Some? && ext.value != [] then ext.value else "png";
    LowerIdempotent(raw);
    Lower(raw)
  }

  /**
   * One item of a page's image list: the seen set afterwards, and the figure
   * it gives. An xref is marked seen once extraction gave a non-empty
   * dictionary, even when the bytes are missing or do not decode.
   */
  function Step(seen: set<int>, page: FigurePage, pageNumber: int, xref: int,
                extraction: map<int, Extraction>, minArea: real): (set<int>, Option<Figure>)
  {
    var rects := RectsOf(page, xref);
    if xref in seen || rects == [] then (seen, None)
    else if AreaOf(rects[0]) < minArea then (seen, None)
    else if xref !in extraction || extraction[xref].EmptyDict? then (seen, None)
    else
      var d := extraction[xref];
      var seen' := seen + {xref};
      if d.image.None? || d.image.value == [] || !d.decodes then (seen', None)
      else (seen', Some(Figure(pageNumber, PdfText.RectOf(rects[0]), AreaOf(rects[0]), d.image.value, ExtOf(d.ext), xref)))
  }

  /** The scan of the first k items of one page's image list. */
  function PageScan(seen: set<int>, page: FigurePage, pageNumber: int, k: nat,
                    extraction: map<int, Extraction>, minArea: real): (set<int>, seq<Figure>)
    requires k <= |page.images|
  {
    if k == 0 then (seen, [])
    else
      var (s, fs) := PageScan(seen, page, pageNumber, k - 1, extraction, minArea);
      var (s', f) := Step(s, page, pageNumber, page.images[k - 1], extraction, minArea);
      (s', if f.Some? then fs + [f.value] else fs)
  }

  /** The scan of pages 1..n. */
  function DocScan(pages: seq<FigurePage>, n: nat, extraction: map<int, Extraction>, minArea: real): (set<int>, seq<Figure>)
    requires n <= |pages|
  {
    if n == 0 then ({}, [])
    else
      var (s, fs) := DocScan(pages, n - 1, extraction, minArea);
      var page := pages[n - 1];
      var (s', pfs) := PageScan(s, page, n, |page.images|, extraction, minArea);
      (s', fs + pfs)
  }

  /** The number of pages scanned: LastPage clipped at zero. */
  function ScannedPages(pageCount: nat, maxPages: Option<int>): (n: nat)
    ensures n <= pageCount
  {
    var last := LastPage(pageCount, maxPages);
    if last < 0 then 0 else last
  }

  /** The figures of a document whose path validated. */
  function Figures(pages: seq<FigurePage>, maxPages: Option<int>, extraction: map<int, Extraction>, minArea: real): seq<Figure> {
    DocScan(pages, ScannedPages(|pages|, maxPages), extraction, minArea).1
  }

  /** The inner loop over one page's image list. */
  method ScanPage(seen0: set<int>, page: FigurePage, pageNumber: int, extraction: map<int, Extraction>, minArea: real)
    returns (seen: set<int>, figures: seq<Figure>)
    ensures (seen, figures) == PageScan(seen0, page, pageNumber, |page.images|, extraction, minArea)
  {
    seen, figures := seen0, [];
    var k := 0;
    while k < |page.images|
      invariant 0 <= k <= |page.images|
      invariant (seen, figures) == PageScan(seen0, page, pageNumber, k, extraction, minArea)
    {
      var xref := page.images[k];
      var rects := RectsOf(page, xref);
      if xref !in seen && rects != [] {
        var rect := rects[0];
        var area := AreaOf(rect);
        if area >= minArea && xref in extraction && extraction[xref].Dict? {
          var d := extraction[xref];
          seen := seen + {xref};
          if d.image.Some? && d.image.value != [] && d.decodes {
            figures := figures + [Figure(pageNumber, PdfText.RectOf(rect), area, d.image.value, ExtOf(d.ext), xref)];
          }
        }
      }
      k := k + 1;
    }
  }

  /**
   * extract_figures: the path is validated before anything is scanned; then
   * pages 1..LastPage are scanned in order, sharing one set of seen xrefs.
   */
  method ExtractFigures(path: PathFacts, pages: seq<FigurePage>, maxPages: Option<int>,
                        extraction: map<int, Extraction>, minArea: real)
    returns (r: Result<seq<Figure>, ExtractionError>)
    ensures r.Err? <==> ValidatePdfPath(path).Err?
    ensures r.Err? ==> r.error.kind == PdfValidation
    ensures r.Ok? ==> r.value == Figures(pages, maxPages, extraction, minArea)
  {
    var validated := ValidatePdfPath(path);
    if validated.Err? {
      return Err(validated.error);
    }
    var results: seq<Figure> := [];
    var seen: set<int> := {};
    var lastPage := ScannedPages(|pages|, maxPages);
    var pageNumber := 1;
    while pageNumber <= lastPage
      invariant 1 <= pageNumber <= lastPage + 1
      invariant (seen, results) == DocScan(pages, pageNumber - 1, extraction, minArea)
    {
      var pageFigures;
      seen, pageFigures := ScanPage(seen, pages[pageNumber - 1], pageNumber, extraction, minArea);
      results := results + pageFigures;
      pageNumber := pageNumber + 1;
    }
    return Ok(results);
  }

  // ---------------------------------------------------------------- properties

  /** A figure passes the filters: placed on its page, large enough, with bytes and a lower-case extension. */
  predicate Kept(f: Figure, pages: seq<FigurePage>, extraction: map<int, Extraction>, minArea: real) {
    && 1 <= f.pageNumber <= |pages|
    && f.xref in pages[f.pageNumber - 1].images
    && RectsOf(pages[f.pageNumber - 1], f.xref) != []
    && f.bbox == PdfText.RectOf(RectsOf(pages[f.pageNumber - 1], f.xref)[0])
    && f.area == f.bbox.w * f.bbox.h && f.area >= minArea
    && f.xref in extraction && extraction[f.xref].Dict? && f.image != []
    && Lower(f.ext) == f.ext
  }

  predicate AllKept(fs: seq<Figure>, pages: seq<FigurePage>, extraction: map<int, Extraction>, minArea: real) {
    forall i :: 0 <= i < |fs| ==> Kept(fs[i], pages, extraction, minArea)
  }

  /** No xref twice, and every xref in the seen set. */
  predicate UniqueIn(fs: seq<Figure>, s: set<int>) {
    && (forall i :: 0 <= i < |fs| ==> fs[i].xref in s)
    && (forall i, j :: 0 <= i < j < |fs| ==> fs[i].xref != fs[j].xref)
  }

  /** Figures of page p only. */
  predicate OnPage(fs: seq<Figure>, p: int) {
    forall i :: 0 <= i < |fs| ==> fs[i].pageNumber == p
  }

  /** Figures of pages up to n only. */
  predicate UpTo(fs: seq<Figure>, n: int) {
    forall i :: 0 <= i < |fs| ==> fs[i].pageNumber <= n
  }

  /** Page numbers never decrease along the list. */
  predicate PageOrdered(fs: seq<Figure>) {
    forall i, j :: 0 <= i < j < |fs| ==> fs[i].pageNumber <= fs[j].pageNumber
  }

  /** What a page scan keeps: the seen set grows, and the page's figures are kept, new, distinct and on page n. */
  predicate PageResult(seen: set<int>, res: (set<int>, seq<Figure>), pages: seq<FigurePage>, n: int,
                       extraction: map<int, Extraction>, minArea: real) {
    && seen <= res.0
    && UniqueIn(res.1, res.0)
    && (forall i :: 0 <= i < |res.1| ==> res.1[i].xref !in seen)
    && OnPage(res.1, n)
    && AllKept(res.1, pages, extraction, minArea)
  }

  /** One item: the seen set grows by at most the item, and a figure is kept, new and on page n. */
  lemma StepFacts(seen: set<int>, pages: seq<FigurePage>, n: nat, xref: int,
                  extraction: map<int, Extraction>, minArea: real)
    requires 1 <= n <= |pages| && xref in pages[n - 1].images
    ensures var (s', f) := Step(seen, pages[n - 1], n, xref, extraction, minArea);
      && (s' == seen || s' == seen + {xref})
      && (f.Some? ==> && s' == seen + {xref} && xref !in seen && f.value.xref == xref
                      && f.value.pageNumber == n && Kept(f.value, pages, extraction, minArea))
  {
  }

  lemma AppendStep(seen: set<int>, res: (set<int>, seq<Figure>), s': set<int>, f: Option<Figure>,
                   pages: seq<FigurePage>, n: nat, xref: int, extraction: map<int, Extraction>, minArea: real)
    requires PageResult(seen, res, pages, n, extraction, minArea)
    requires s' == res.0 || s' == res.0 + {xref}
    requires f.Some? ==> && s' == res.0 + {xref} && xref !in res.0 && f.value.xref == xref
                         && f.value.pageNumber == n && Kept(f.value, pages, extraction, minArea)
    ensures PageResult(seen, (s', if f.Some? then res.1 + [f.value] else res.1), pages, n, extraction, minArea)
  {
    if f.Some? {
      var fs := res.1 + [f.value];
      assert forall i :: 0 <= i < |res.1| ==> fs[i] == res.1[i];
      assert fs[|res.1|] == f.value;
    }
  }

  /** A page's figures: all from this page and kept, the seen set grows, and their xrefs are new and distinct. */
  lemma {:induction false} PageScanFacts(seen: set<int>, pages: seq<FigurePage>, n: nat, k: nat,
                                         extraction: map<int, Extraction>, minArea: real)
    requires 1 <= n <= |pages| && k <= |pages[n - 1].images|
    ensures PageResult(seen, PageScan(seen, pages[n - 1], n, k, extraction, minArea), pages, n, extraction, minArea)
  {
    if k > 0 {
      var page := pages[n - 1];
      PageScanFacts(seen, pages, n, k - 1, extraction, minArea);
      var res := PageScan(seen, page, n, k - 1, extraction, minArea);
      var xref := page.images[k - 1];
      StepFacts(res.0, pages, n, xref, extraction, minArea);
      var step := Step(res.0, page, n, xref, extraction, minArea);
      AppendStep(seen, res, step.0, step.1, pages, n, xref, extraction, minArea);
    }
  }

  lemma AppendKept(a: seq<Figure>, b: seq<Figure>, pages: seq<FigurePage>, extraction: map<int, Extraction>, minArea: real)
    requires AllKept(a, pages, extraction, minArea) && AllKept(b, pages, extraction, minArea)
    ensures AllKept(a + b, pages, extraction, minArea)
  {
    forall i | 0 <= i < |a + b| ensures Kept((a + b)[i], pages, extraction, minArea) {
      if i >= |a| { assert (a + b)[i] == b[i - |a|]; }
    }
  }

  lemma AppendUnique(a: seq<Figure>, s: set<int>, b: seq<Figure>, s': set<int>)
    requires UniqueIn(a, s) && UniqueIn(b, s') && s <= s'
    requires forall i :: 0 <= i < |b| ==> b[i].xref !in s
    ensures UniqueIn(a + b, s')
  {
    var fs := a + b;
    forall i | 0 <= i < |fs| ensures fs[i].xref in s' {
      if i >= |a| { assert fs[i] == b[i - |a|]; }
    }
    forall i, j | 0 <= i < j < |fs| ensures fs[i].xref != fs[j].xref {
      if j >= |a| {
        assert fs[j] == b[j - |a|];
        if i >= |a| { assert fs[i] == b[i - |a|]; }
      }
    }
  }

  lemma AppendOrdered(a: seq<Figure>, b: seq<Figure>, n: int)
    requires PageOrdered(a) && UpTo(a, n - 1) && OnPage(b, n)
    ensures PageOrdered(a + b) && UpTo(a + b, n)
  {
    var fs := a + b;
    forall i | 0 <= i < |fs| ensures fs[i].pageNumber <= n {
      if i >= |a| { assert fs[i] == b[i - |a|]; }
    }
    forall i, j | 0 <= i < j < |fs| ensures fs[i].pageNumber <= fs[j].pageNumber {
      if j >= |a| {
        assert fs[j] == b[j - |a|];
        if i >= |a| { assert fs[i] == b[i - |a|]; }
      }
    }
  }

  /** Figures of pages 1..n: kept, in page order, and no xref twice. */
  lemma {:induction false} DocScanFacts(pages: seq<FigurePage>, n: nat, extraction: map<int, Extraction>, minArea: real)
    requires n <= |pages|
    ensures var res := DocScan(pages, n, extraction, minArea);
      && UniqueIn(res.1, res.0)
      && AllKept(res.1, pages, extraction, minArea)
      && PageOrdered(res.1) && UpTo(res.1, n)
  {
    if n > 0 {
      DocScanFacts(pages, n - 1, extraction, minArea);
      var res := DocScan(pages, n - 1, extraction, minArea);
      var page := pages[n - 1];
      PageScanFacts(res.0, pages, n, |page.images|, extraction, minArea);
      var pres := PageScan(res.0, page, n, |page.images|, extraction, minArea);
      assert PageResult(res.0, pres, pages, n, extraction, minArea);
      AppendKept(res.1, pres.1, pages, extraction, minArea);
      AppendUnique(res.1, res.0, pres.1, pres.0);
      AppendOrdered(res.1, pres.1, n);
    }
  }

  /**
   * The returned figures: each passes the filters and lies on a scanned
   * page, page numbers never decrease, and no xref is returned twice.
   */
  lemma FiguresFacts(pages: seq<FigurePage>, maxPages: Option<int>, extraction: map<int, Extraction>, minArea: real)
    ensures var fs := Figures(pages, maxPages, extraction, minArea);
      && AllKept(fs, pages, extraction, minArea)
      && UpTo(fs, ScannedPages(|pages|, maxPages))
      && PageOrdered(fs)
      && (forall i, j :: 0 <= i < j < |fs| ==> fs[i].xref != fs[j].xref)
  {
    DocScanFacts(pages, ScannedPages(|pages|, maxPages), extraction, minArea);
  }

  /** An xref already seen gives nothing, on any page. */
  lemma SeenSkipped(seen: set<int>, page: FigurePage, pageNumber: int, xref: int,
                    extraction: map<int, Extraction>, minArea: real)
    requires xref in seen
    ensures Step(seen, page, pageNumber, xref, extraction, minArea) == (seen, None)
  {
  }
}
