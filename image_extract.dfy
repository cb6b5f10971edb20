/**
 * Embedded-image extraction: the scan over the requested pages that keeps
 * each embedded image once across the whole document, drops small images,
 * and records its bbox when the page places it; the saving of the kept
 * images under per-page folders; and the removal of the raw bytes.
 *
 * PyMuPDF is an input: each page's image list (xrefs) and placed images,
 * and what extracting each xref gives. Base64 encoding is not modelled:
 * an entry's base64 field holds the bytes it encodes.
 */
module ImageExtract {
  import opened Wrappers
  import opened Text
  import Schema
  import PdfText

  type Bytes = seq<bv8>

  const MinImageArea: real := 1000.0
  const MinImageDim: int := 20

  /** What doc.extract_image(xref) gave; an xref it raises on is absent from the extraction map. */
  datatype Extracted = Extracted(image: Option<Bytes>, ext: Option<string>, width: Option<int>, height: Option<int>)

  /** One entry of page.get_image_info(xrefs=True). */
  datatype PlacedImage = PlacedImage(xref: Option<int>, bbox: PdfText.Quad)

  /** A page of the document: the xrefs of page.get_images, and where images are placed. */
  datatype PageInput = PageInput(xrefs: seq<int>, placed: seq<PlacedImage>)

  /** An image entry; rawBytes is the "_raw_bytes" key, None once stripped. */
  datatype ImageEntry = ImageEntry(xref: int, format: string, width: int, height: int, bbox: Option<Schema.Rect>,
                                   sizeBytes: int, rawBytes: Option<Bytes>, base64Data: Option<Bytes>)

  /** The rectangle of the first placement of this xref, if any. */
  function FindPlacement(placed: seq<PlacedImage>, xref: int): (r: Option<PdfText.Quad>)
    ensures r.Some? <==> exists i :: 0 <= i < |placed| && placed[i].xref == Some(xref)
    ensures r.Some? ==> exists i :: 0 <= i < |placed| && placed[i].xref == Some(xref) && placed[i].bbox == r.value
  {
    if placed == [] then None
    else if placed[0].xref == Some(xref) then Some(placed[0].bbox)
    else
      var r := FindPlacement(placed[1..], xref);
      assert forall i :: 1 <= i < |placed| ==> placed[i] == placed[1..][i - 1];
      r
  }

  function Area(q: PdfText.Quad): real { (q.x1 - q.x0) * (q.y1 - q.y0) }

  /**
   * The entry an xref gives on a page when it was not kept before: none when
   * extraction raises or gives no image bytes, when either dimension is under
   * 20 pixels, or when the image is placed on a rectangle smaller than the
   * minimum area.
   */
  function EntryOf(xref: int, placed: seq<PlacedImage>, extracted: map<int, Extracted>,
                   minArea: real, includeBase64: bool): (r: Option<ImageEntry>)
    ensures r.Some? ==> r.value.xref == xref && r.value.width >= MinImageDim && r.value.height >= MinImageDim
    ensures r.Some? ==> r.value.bbox.None? || r.value.bbox.value.w * r.value.bbox.value.h >= minArea
    ensures r.Some? ==> (r.value.base64Data.Some? <==> includeBase64) && r.value.rawBytes.Some?
  {
    if xref !in extracted then None
    else
      var ex := extracted[xref];
      if ex.image.None? || ex.image.value == [] then None
      else
        var width := if ex.width.Some? then ex.width.value else 0;
        var height := if ex.height.Some? then ex.height.value else 0;
        var quad := FindPlacement(placed, xref);
        if width < MinImageDim || height < MinImageDim then None
        else if quad.Some? && Area(quad.value) < minArea then None
        else
          var bytes := ex.image.value;
          Some(ImageEntry(xref, if ex.ext.Some? then ex.ext.value else "png", width, height,
                          if quad.Some? then Some(PdfText.RectOf(quad.value)) else None,
                          |bytes|, Some(bytes), if includeBase64 then Some(bytes) else None))
  }

  /** The scan of one page's image list: the xrefs seen so far, and the page's entries. */
  function PageScan(seen: set<int>, xrefs: seq<int>, placed: seq<PlacedImage>, extracted: map<int, Extracted>,
                    minArea: real, includeBase64: bool): (set<int>, seq<ImageEntry>)
  {
    if xrefs == [] then (seen, [])
    else
      var (s, es) := PageScan(seen, xrefs[..|xrefs| - 1], placed, extracted, minArea, includeBase64);
      var xref := xrefs[|xrefs| - 1];
      if xref in s then (s, es)
      else
        match EntryOf(xref, placed, extracted, minArea, includeBase64)
        case None => (s, es)
        case Some(e) => (s + {xref}, es + [e])
  }

  predicate Requested(pageNumbers: Option<seq<int>>, n: int) {
    pageNumbers.None? || n in pageNumbers.value
  }

  /** The scan of the document: the xrefs seen so far, and the entries of each requested page. */
  function DocScan(pages: seq<PageInput>, pageNumbers: Option<seq<int>>, extracted: map<int, Extracted>,
                   minArea: real, includeBase64: bool): (set<int>, map<int, seq<ImageEntry>>)
  {
    if pages == [] then ({}, map[])
    else
      var (s, result) := DocScan(pages[..|pages| - 1], pageNumbers, extracted, minArea, includeBase64);
      var n := |pages|;
      if !Requested(pageNumbers, n) then (s, result)
      else
        var page := pages[n - 1];
        var (s', es) := PageScan(s, page.xrefs, page.placed, extracted, minArea, includeBase64);
        (s', result[n := es])
  }

  /** The inner loop: one page's image list. */
  method ScanPage(seen0: set<int>, page: PageInput, extracted: map<int, Extracted>, minArea: real, includeBase64: bool)
    returns (seen: set<int>, pageImages: seq<ImageEntry>)
    ensures (seen, pageImages) == PageScan(seen0, page.xrefs, page.placed, extracted, minArea, includeBase64)
  {
    seen, pageImages := seen0, [];
    var k := 0;
    while k < |page.xrefs|
      invariant 0 <= k <= |page.xrefs|
      invariant (seen, pageImages) == PageScan(seen0, page.xrefs[..k], page.placed, extracted, minArea, includeBase64)
    {
      assert page.xrefs[..k + 1][..k] == page.xrefs[..k];
      var xref := page.xrefs[k];
      if xref !in seen {
        var entry := EntryOf(xref, page.placed, extracted, minArea, includeBase64);
        if entry.Some? {
          seen := seen + {xref};
          pageImages := pageImages + [entry.value];
        }
      }
      k := k + 1;
    }
    assert page.xrefs[..|page.xrefs|] == page.xrefs;
  }

  /** extract_page_images: the requested pages scanned in order, sharing one set of seen xrefs. */
  method ExtractPageImages(pages: seq<PageInput>, pageNumbers: Option<seq<int>>, extracted: map<int, Extracted>,
                           minArea: real, includeBase64: bool)
    returns (result: map<int, seq<ImageEntry>>)
    ensures result == DocScan(pages, pageNumbers, extracted, minArea, includeBase64).1
  {
    result := map[];
    var seen: set<int> := {};
    var i := 0;
    while i < |pages|
      invariant 0 <= i <= |pages|
      invariant (seen, result) == DocScan(pages[..i], pageNumbers, extracted, minArea, includeBase64)
    {
      assert pages[..i + 1][..i] == pages[..i];
      var pageNum := i + 1;
      if Requested(pageNumbers, pageNum) {
        var pageImages;
        seen, pageImages := ScanPage(seen, pages[i], extracted, minArea, includeBase64);
        result := result[pageNum := pageImages];
      }
      i := i + 1;
    }
    assert pages[..|pages|] == pages;
  }

  // ---------------------------------------------------------------- properties of the scan

  predicate XrefsIn(es: seq<ImageEntry>, s: set<int>) {
    forall i :: 0 <= i < |es| ==> es[i].xref in s
  }

  predicate DistinctXrefs(es: seq<ImageEntry>) {
    forall i, j :: 0 <= i < j < |es| ==> es[i].xref != es[j].xref
  }

  /** Every entry passes the filters. */
  predicate Kept(e: ImageEntry, minArea: real, includeBase64: bool) {
    && e.width >= MinImageDim && e.height >= MinImageDim
    && (e.bbox.None? || e.bbox.value.w * e.bbox.value.h >= minArea)
    && (e.base64Data.Some? <==> includeBase64)
  }

  /**
   * A page's entries: the seen set only grows and holds their xrefs, none of
   * which was seen before, and no two of them share an xref.
   */
  lemma {:induction false} PageScanUnique(seen: set<int>, xrefs: seq<int>, placed: seq<PlacedImage>,
                                          extracted: map<int, Extracted>, minArea: real, includeBase64: bool)
    ensures var (s, es) := PageScan(seen, xrefs, placed, extracted, minArea, includeBase64);
      && seen <= s
      && XrefsIn(es, s)
      && (forall i :: 0 <= i < |es| ==> es[i].xref !in seen)
      && DistinctXrefs(es)
  {
    if xrefs != [] {
      var init := xrefs[..|xrefs| - 1];
      PageScanUnique(seen, init, placed, extracted, minArea, includeBase64);
      var (s, es) := PageScan(seen, init, placed, extracted, minArea, includeBase64);
      var xref := xrefs[|xrefs| - 1];
      if xref !in s {
        var entry := EntryOf(xref, placed, extracted, minArea, includeBase64);
        if entry.Some? {
          var es' := es + [entry.value];
          assert es'[|es|].xref == xref;
          assert forall i :: 0 <= i < |es| ==> es'[i] == es[i];
        }
      }
    }
  }

  /** Every entry passes the filters and is one of the given images. */
  predicate KeptFrom(es: seq<ImageEntry>, xrefs: seq<int>, minArea: real, includeBase64: bool) {
    forall i :: 0 <= i < |es| ==> Kept(es[i], minArea, includeBase64) && es[i].xref in xrefs
  }

  /** Every entry of a page passes the filters and is one of the page's own images. */
  lemma {:induction false} PageScanKept(seen: set<int>, xrefs: seq<int>, placed: seq<PlacedImage>,
                                        extracted: map<int, Extracted>, minArea: real, includeBase64: bool)
    ensures KeptFrom(PageScan(seen, xrefs, placed, extracted, minArea, includeBase64).1, xrefs, minArea, includeBase64)
  {
    if xrefs != [] {
      var init := xrefs[..|xrefs| - 1];
      PageScanKept(seen, init, placed, extracted, minArea, includeBase64);
      var s := PageScan(seen, init, placed, extracted, minArea, includeBase64).0;
      var es := PageScan(seen, init, placed, extracted, minArea, includeBase64).1;
      var xref := xrefs[|xrefs| - 1];
      assert forall x :: x in init ==> x in xrefs;
      assert KeptFrom(es, xrefs, minArea, includeBase64);
      if xref !in s {
        var entry := EntryOf(xref, placed, extracted, minArea, includeBase64);
        if entry.Some? {
          var es' := es + [entry.value];
          assert Kept(es'[|es|], minArea, includeBase64) && es'[|es|].xref in xrefs;
          assert forall i :: 0 <= i < |es| ==> es'[i] == es[i];
          assert KeptFrom(es', xrefs, minArea, includeBase64);
        }
      }
    }
  }

  /** No xref is kept twice, on one page or across pages, and every kept xref is in the seen set. */
  predicate NoDuplicates(result: map<int, seq<ImageEntry>>) {
    forall p, q, i, j ::
      (p in result && q in result && 0 <= i < |result[p]| && 0 <= j < |result[q]| && (p, i) != (q, j))
      ==> result[p][i].xref != result[q][j].xref
  }

  predicate AllKeptIn(result: map<int, seq<ImageEntry>>, s: set<int>) {
    forall p :: p in result ==> XrefsIn(result[p], s)
  }

  lemma AddPagePreservesNoDuplicates(result: map<int, seq<ImageEntry>>, s: set<int>, n: int,
                                     s': set<int>, es: seq<ImageEntry>)
    requires NoDuplicates(result) && AllKeptIn(result, s) && n !in result
    requires s <= s' && XrefsIn(es, s') && DistinctXrefs(es)
    requires forall i :: 0 <= i < |es| ==> es[i].xref !in s
    ensures NoDuplicates(result[n := es]) && AllKeptIn(result[n := es], s')
  {
    var r: map<int, seq<ImageEntry>> := result[n := es];
    forall p: int, q: int, i: int, j: int | p in r && q in r && 0 <= i < |r[p]| && 0 <= j < |r[q]| && (p, i) != (q, j)
      ensures r[p][i].xref != r[q][j].xref
    {
      if p == n && q == n {
        if i < j { assert es[i].xref != es[j].xref; } else { assert es[j].xref != es[i].xref; }
      } else if p == n {
        assert result[q][j].xref in s;
      } else if q == n {
        assert result[p][i].xref in s;
      }
    }
  }

  /** Exactly the requested pages of the document are keys, with [] when a page keeps nothing. */
  lemma {:induction false} DocScanKeys(pages: seq<PageInput>, pageNumbers: Option<seq<int>>,
                                       extracted: map<int, Extracted>, minArea: real, includeBase64: bool)
    ensures var result := DocScan(pages, pageNumbers, extracted, minArea, includeBase64).1;
      forall n :: n in result <==> 1 <= n <= |pages| && Requested(pageNumbers, n)
  {
    if pages != [] {
      DocScanKeys(pages[..|pages| - 1], pageNumbers, extracted, minArea, includeBase64);
    }
  }

  /** No xref is kept twice across all pages. */
  lemma {:induction false} DocScanUnique(pages: seq<PageInput>, pageNumbers: Option<seq<int>>,
                                         extracted: map<int, Extracted>, minArea: real, includeBase64: bool)
    ensures var (s, result) := DocScan(pages, pageNumbers, extracted, minArea, includeBase64);
      NoDuplicates(result) && AllKeptIn(result, s)
  {
    if pages != [] {
      var init := pages[..|pages| - 1];
      DocScanUnique(init, pageNumbers, extracted, minArea, includeBase64);
      DocScanKeys(init, pageNumbers, extracted, minArea, includeBase64);
      var (s, result) := DocScan(init, pageNumbers, extracted, minArea, includeBase64);
      var n := |pages|;
      if Requested(pageNumbers, n) {
        var page := pages[n - 1];
        PageScanUnique(s, page.xrefs, page.placed, extracted, minArea, includeBase64);
        var (s', es) := PageScan(s, page.xrefs, page.placed, extracted, minArea, includeBase64);
        AddPagePreservesNoDuplicates(result, s, n, s', es);
      }
    }
  }

  /** Every listed image passes the filters and comes from the image list of the page it is listed under. */
  predicate KeptOnPage(result: map<int, seq<ImageEntry>>, pages: seq<PageInput>, minArea: real, includeBase64: bool) {
    forall n :: n in result ==> 1 <= n <= |pages| && KeptFrom(result[n], pages[n - 1].xrefs, minArea, includeBase64)
  }

  /** Every kept image passes the filters and comes from the image list of the page it is listed under. */
  lemma {:induction false} DocScanKept(pages: seq<PageInput>, pageNumbers: Option<seq<int>>,
                                       extracted: map<int, Extracted>, minArea: real, includeBase64: bool)
    ensures KeptOnPage(DocScan(pages, pageNumbers, extracted, minArea, includeBase64).1, pages, minArea, includeBase64)
  {
    if pages != [] {
      var init := pages[..|pages| - 1];
      DocScanKept(init, pageNumbers, extracted, minArea, includeBase64);
      var s := DocScan(init, pageNumbers, extracted, minArea, includeBase64).0;
      var result := DocScan(init, pageNumbers, extracted, minArea, includeBase64).1;
      var n := |pages|;
      assert forall j :: 0 <= j < n - 1 ==> pages[j] == init[j];
      assert KeptOnPage(result, pages, minArea, includeBase64);
      if Requested(pageNumbers, n) {
        var page := pages[n - 1];
        PageScanKept(s, page.xrefs, page.placed, extracted, minArea, includeBase64);
      }
    }
  }

  /** An image whose xref was kept on an earlier page is never kept again. */
  lemma SeenSkipped(seen: set<int>, xref: int, placed: seq<PlacedImage>, extracted: map<int, Extracted>,
                    minArea: real, includeBase64: bool)
    requires xref in seen
    ensures PageScan(seen, [xref], placed, extracted, minArea, includeBase64) == (seen, [])
  {
    assert [xref][..0] == [];
  }

  // ---------------------------------------------------------------- save_images_to_disk

  /** <output_dir>/<doc_id>/page_<n>/img_<idx>.<ext> (resolving to an absolute path is not modelled). */
  function ImagePath(outputDir: string, docId: string, pageNum: int, idx: nat, ext: string): string {
    (outputDir + "/" + docId + "/page_") + PagePart(pageNum, idx, ext)
  }

  /** <n>/img_<idx>.<ext> */
  function PagePart(pageNum: int, idx: nat, ext: string): string {
    IntToString(pageNum) + "/" + ImageName(idx, ext)
  }

  /** img_<idx>.<ext> */
  function ImageName(idx: nat, ext: string): string {
    "img_" + NatToString(idx) + "." + ext
  }

  /** Characters str() of an int can hold. */
  predicate NumberChars(a: string) { forall i :: 0 <= i < |a| ==> IsDigit(a[i]) || a[i] == '-' }

  /** A number followed by a separator that cannot occur in numbers is read back unambiguously. */
  lemma SplitAtSeparator(a: string, b: string, c: char, x: string, y: string)
    requires NumberChars(a) && NumberChars(b) && !IsDigit(c) && c != '-'
    requires a + [c] + x == b + [c] + y
    ensures a == b && x == y
  {
    var s, t := a + [c] + x, b + [c] + y;
    assert forall k :: 0 <= k < |a| ==> s[k] == a[k];
    assert forall k :: 0 <= k < |b| ==> t[k] == b[k];
    assert s[|a|] == c && t[|b|] == c;
    assert |a| == |b|;
    assert a == s[..|a|] && b == t[..|b|];
    assert x == s[|a| + 1..] && y == t[|b| + 1..];
  }

  lemma IntToStringChars(n: int)
    ensures NumberChars(IntToString(n)) && NumberChars(NatToString(if n < 0 then 0 else n))
  {
  }

  lemma IntToStringInjective(m: int, n: int)
    requires IntToString(m) == IntToString(n)
    ensures m == n
  {
    ParseIntToString(m);
    ParseIntToString(n);
  }

  lemma DropPrefix(pre: string, x: string, y: string)
    requires pre + x == pre + y
    ensures x == y
  {
    assert x == (pre + x)[|pre|..];
    assert y == (pre + y)[|pre|..];
  }

  /** Distinct indexes name distinct files in a page folder. */
  lemma ImageNameInjective(i: nat, e: string, j: nat, f: string)
    requires ImageName(i, e) == ImageName(j, f)
    ensures i == j
  {
    assert ImageName(i, e) == "img_" + (NatToString(i) + ['.'] + e);
    assert ImageName(j, f) == "img_" + (NatToString(j) + ['.'] + f);
    DropPrefix("img_", NatToString(i) + ['.'] + e, NatToString(j) + ['.'] + f);
    IntToStringChars(i);
    IntToStringChars(j);
    SplitAtSeparator(NatToString(i), NatToString(j), '.', e, f);
    assert IntToString(i) == NatToString(i) && IntToString(j) == NatToString(j);
    IntToStringInjective(i, j);
  }

  /** Distinct (page, index) pairs give distinct page parts. */
  lemma PagePartInjective(p: int, i: nat, e: string, q: int, j: nat, f: string)
    requires PagePart(p, i, e) == PagePart(q, j, f)
    ensures p == q && i == j
  {
    IntToStringChars(p);
    IntToStringChars(q);
    SplitAtSeparator(IntToString(p), IntToString(q), '/', ImageName(i, e), ImageName(j, f));
    IntToStringInjective(p, q);
    ImageNameInjective(i, e, j, f);
  }

  /** Distinct (page, index) pairs name distinct files. */
  lemma ImagePathInjective(dir: string, id: string, p: int, i: nat, e: string, q: int, j: nat, f: string)
    requires ImagePath(dir, id, p, i, e) == ImagePath(dir, id, q, j, f)
    ensures p == q && i == j
  {
    DropPrefix(dir + "/" + id + "/page_", PagePart(p, i, e), PagePart(q, j, f));
    PagePartInjective(p, i, e, q, j, f);
  }

  function PathFor(all: map<int, seq<ImageEntry>>, dir: string, id: string, p: int, i: int): string
    requires p in all && 0 <= i < |all[p]|
  {
    ImagePath(dir, id, p, i, all[p][i].format)
  }

  /** Every recorded (page, index) is an image with raw bytes, recorded under its path, which holds its bytes. */
  predicate Saved(all: map<int, seq<ImageEntry>>, dir: string, id: string,
                  pathMap: map<(int, int), string>, files: map<string, Bytes>) {
    forall k :: k in pathMap ==>
      && k.0 in all && 0 <= k.1 < |all[k.0]| && all[k.0][k.1].rawBytes.Some?
      && pathMap[k] == PathFor(all, dir, id, k.0, k.1)
      && pathMap[k] in files && files[pathMap[k]] == all[k.0][k.1].rawBytes.value
  }

  lemma SaveOne(all: map<int, seq<ImageEntry>>, dir: string, id: string,
                pathMap: map<(int, int), string>, files: map<string, Bytes>, p: int, i: int)
    requires Saved(all, dir, id, pathMap, files) && (p, i) !in pathMap
    requires p in all && 0 <= i < |all[p]| && all[p][i].rawBytes.Some?
    ensures Saved(all, dir, id, pathMap[(p, i) := PathFor(all, dir, id, p, i)],
                  files[PathFor(all, dir, id, p, i) := all[p][i].rawBytes.value])
  {
    var path := PathFor(all, dir, id, p, i);
    forall k | k in pathMap ensures pathMap[k] != path {
      if pathMap[k] == path {
        ImagePathInjective(dir, id, k.0, k.1, all[k.0][k.1].format, p, i, all[p][i].format);
      }
    }
  }

  /** One page's images written; the index names the file whether or not earlier images were skipped. */
  method SavePage(all: map<int, seq<ImageEntry>>, dir: string, id: string, pageNum: int,
                  pathMap0: map<(int, int), string>, files0: map<string, Bytes>)
    returns (pathMap: map<(int, int), string>, files: map<string, Bytes>)
    requires pageNum in all && Saved(all, dir, id, pathMap0, files0)
    requires forall k :: k in pathMap0 ==> k.0 != pageNum
    ensures Saved(all, dir, id, pathMap, files)
    ensures forall k :: k in pathMap <==>
      k in pathMap0 || (k.0 == pageNum && 0 <= k.1 < |all[pageNum]| && all[pageNum][k.1].rawBytes.Some?)
  {
    pathMap, files := pathMap0, files0;
    var images := all[pageNum];
    var idx := 0;
    while idx < |images|
      invariant 0 <= idx <= |images|
      invariant Saved(all, dir, id, pathMap, files)
      invariant forall k :: k in pathMap <==>
        k in pathMap0 || (k.0 == pageNum && 0 <= k.1 < idx && images[k.1].rawBytes.Some?)
    {
      var img := images[idx];
      if img.rawBytes.Some? {
        var path := ImagePath(dir, id, pageNum, idx, img.format);
        SaveOne(all, dir, id, pathMap, files, pageNum, idx);
        files := files[path := img.rawBytes.value];
        pathMap := pathMap[(pageNum, idx) := path];
      }
      idx := idx + 1;
    }
  }

  /** A non-empty set of page numbers has a smallest member. */
  lemma HasMinimum(s: set<int>)
    requires exists y :: y in s
    ensures exists m :: m in s && forall k :: k in s ==> m <= k
    decreases |s|
  {
    var x :| x in s;
    var rest := s - {x};
    if exists y :: y in rest {
      HasMinimum(rest);
      var m :| m in rest && forall k :: k in rest ==> m <= k;
      var least := if x < m then x else m;
      forall k | k in s ensures least <= k {
        if k != x { assert k in rest; }
      }
      assert least in s;
    } else {
      assert forall k :: k in s ==> k == x || k in rest;
    }
  }

  /**
   * save_images_to_disk: pages in ascending order, and for each page its
   * images by index. Exactly the images that still carry raw bytes are
   * written, each to img_<index>.<format> under page_<n>, keyed by
   * (page, index); the files returned are the ones written.
   */
  method SaveImagesToDisk(all: map<int, seq<ImageEntry>>, dir: string, id: string)
    returns (pathMap: map<(int, int), string>, files: map<string, Bytes>)
    ensures Saved(all, dir, id, pathMap, files)
    ensures forall k :: k in pathMap <==> k.0 in all && 0 <= k.1 < |all[k.0]| && all[k.0][k.1].rawBytes.Some?
  {
    pathMap, files := map[], map[];
    var remaining := all.Keys;
    while exists y :: y in remaining
      invariant remaining <= all.Keys
      invariant Saved(all, dir, id, pathMap, files)
      invariant forall k :: k in pathMap <==>
        k.0 in all && k.0 !in remaining && 0 <= k.1 < |all[k.0]| && all[k.0][k.1].rawBytes.Some?
      decreases |remaining|
    {
      HasMinimum(remaining);
      var pageNum :| pageNum in remaining && forall k :: k in remaining ==> pageNum <= k;
      pathMap, files := SavePage(all, dir, id, pageNum, pathMap, files);
      remaining := remaining - {pageNum};
    }
  }

  // ---------------------------------------------------------------- strip_raw_bytes

  function StripEntries(images: seq<ImageEntry>): (r: seq<ImageEntry>)
    ensures |r| == |images|
    ensures forall i :: 0 <= i < |images| ==> r[i] == images[i].(rawBytes := None)
  {
    if images == [] then [] else [images[0].(rawBytes := None)] + StripEntries(images[1..])
  }

  /** strip_raw_bytes: every image loses its raw bytes, and nothing else changes. */
  function StripRawBytes(all: map<int, seq<ImageEntry>>): (r: map<int, seq<ImageEntry>>)
    ensures r.Keys == all.Keys
    ensures forall p :: p in all ==> |r[p]| == |all[p]|
    ensures forall p, i :: p in all && 0 <= i < |all[p]| ==> r[p][i] == all[p][i].(rawBytes := None)
  {
    map p | p in all :: StripEntries(all[p])
  }
}
