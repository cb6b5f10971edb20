/**
 * The second half of the question segmenter: the pages of a document are
 * segmented one after another with the section carried from page to page,
 * the segments are sorted by question number, and each page image with a
 * bounding box is attached to the segment of its page it most likely
 * belongs to, preferring segments that mention a figure, together with the
 * description of a nearby diagram when one was read.
 */
module QuestionPages {
  import opened Wrappers
  import opened Patterns
  import opened QuestionParser
  import Sorting
  import Schema

  // ---------------------------------------------------------------------
  // All pages
  // ---------------------------------------------------------------------

  /** What parse_all_pages reads of a page dictionary: its number and its text. */
  datatype PageText = PageText(pageNumber: int, text: string)

  /**
   * The segments of the first k pages, in page order, and the section in
   * force after them: each page starts in the section the page before it left.
   */
  function Collected(pages: seq<PageText>, k: nat): (seq<Segment>, Option<string>)
    requires k <= |pages|
  {
    if k == 0 then ([], None)
    else
      var prior := Collected(pages, k - 1);
      var r := ParsePage(pages[k - 1].text, pages[k - 1].pageNumber, prior.1);
      (prior.0 + r.0, r.1)
  }

  /** The sort key: the question number, or 9999 when it is missing or 0. */
  function NumberKey(s: Segment): (real, real) {
    ((if s.questionNumber.Some? && s.questionNumber.value != 0 then s.questionNumber.value else 9999) as real, 0.0)
  }

  /**
   * parse_all_pages: the segments of every page, sorted by question number;
   * the sort keeps every segment, and segments with the same number keep
   * their page order.
   */
  method ParseAllPages(pages: seq<PageText>) returns (all: seq<Segment>)
    ensures all == Sorting.SortBy(Collected(pages, |pages|).0, NumberKey)
    ensures Sorting.SortedBy(all, NumberKey)
    ensures multiset(all) == multiset(Collected(pages, |pages|).0)
    ensures forall k :: Sorting.KeyFilter(all, NumberKey, k) == Sorting.KeyFilter(Collected(pages, |pages|).0, NumberKey, k)
  {
    all := [];
    var section: Option<string> := None;
    for k := 0 to |pages|
      invariant (all, section) == Collected(pages, k)
    {
      var segments, last := ParsePageQuestions(pages[k].text, pages[k].pageNumber, section);
      all := all + segments;
      section := last;
    }
    var collected := all;
    all := Sorting.SortBy(collected, NumberKey);
    Sorting.SortByProperties(collected, NumberKey);
    forall k {
      Sorting.SortByStable(collected, NumberKey, k);
    }
  }

  /** Every segment carries a question number below 1000 and no image. */
  predicate Numbered(segs: seq<Segment>) {
    forall i :: 0 <= i < |segs| ==>
      segs[i].questionNumber.Some? && 0 <= segs[i].questionNumber.value < 1000 && segs[i].images == []
  }

  lemma PageNumbered(text: string, page: int, section: Option<string>)
    ensures Numbered(ParsePage(text, page, section).0)
  {
    var segs := ParsePage(text, page, section).0;
    forall j | 0 <= j < |segs|
      ensures segs[j].questionNumber.Some? && 0 <= segs[j].questionNumber.value < 1000 && segs[j].images == []
    {
      ParsePageSegment(text, page, section, j);
    }
  }

  /** The segments of every page are numbered below 1000 and carry no image. */
  lemma {:induction false} CollectedNumbers(pages: seq<PageText>, k: nat)
    requires k <= |pages|
    ensures Numbered(Collected(pages, k).0)
  {
    if k > 0 {
      var prior, pg := Collected(pages, k - 1), pages[k - 1];
      CollectedNumbers(pages, k - 1);
      PageNumbered(pg.text, pg.pageNumber, prior.1);
      NumberedConcat(prior.0, ParsePage(pg.text, pg.pageNumber, prior.1).0);
    }
  }

  lemma NumberedConcat(a: seq<Segment>, b: seq<Segment>)
    requires Numbered(a) && Numbered(b)
    ensures Numbered(a + b)
  {
    assert forall i :: |a| <= i < |a + b| ==> (a + b)[i] == b[i - |a|];
  }

  /** After sorting, a segment numbered 0 is followed only by segments numbered 0. */
  lemma UnnumberedLast(pages: seq<PageText>, i: nat, j: nat)
    requires var all := Sorting.SortBy(Collected(pages, |pages|).0, NumberKey);
      i < j < |all| && NumberKey(all[i]).0 == 9999 as real
    ensures var all := Sorting.SortBy(Collected(pages, |pages|).0, NumberKey);
      NumberKey(all[j]).0 == 9999 as real && all[j].questionNumber == Some(0)
  {
    var segs := Collected(pages, |pages|).0;
    var all := Sorting.SortBy(segs, NumberKey);
    Sorting.SortByProperties(segs, NumberKey);
    CollectedNumbers(pages, |pages|);
    assert Sorting.KeyLe(NumberKey(all[i]), NumberKey(all[j]));
    assert all[j] in multiset(segs);
  }

  // ---------------------------------------------------------------------
  // Diagram descriptions
  // ---------------------------------------------------------------------

  /** An entry of the description index: a figure's bbox and the description read from it. */
  datatype Described = Described(bbox: Schema.Rect, description: string)

  /** The diagrams read, or none when there is no diagrams result. */
  function DiagramsOf(diagrams: Option<Schema.DocumentDiagramsResult>): seq<Schema.DiagramResult> {
    if diagrams.Some? then diagrams.value.diagrams else []
  }

  /** The diagrams of page p that have a non-empty description, in order. */
  function DescribedOn(diags: seq<Schema.DiagramResult>, p: int): (r: seq<Described>)
    ensures forall t :: 0 <= t < |r| ==> r[t].description != []
  {
    if diags == [] then []
    else
      var dr := diags[|diags| - 1];
      var d := dr.reading.description;
      DescribedOn(diags[..|diags| - 1], p)
        + (if dr.figure.pageNumber == p && d.Some? && d.value != [] then [Described(dr.figure.bbox, d.value)] else [])
  }

  function Lookup(index: map<int, seq<Described>>, p: int): seq<Described> {
    if p in index then index[p] else []
  }

  /** The description index: page number to the described diagrams on it. */
  method BuildDiagramIndex(diagrams: Option<Schema.DocumentDiagramsResult>) returns (index: map<int, seq<Described>>)
    ensures forall p :: Lookup(index, p) == DescribedOn(DiagramsOf(diagrams), p)
  {
    index := map[];
    var diags := DiagramsOf(diagrams);
    for k := 0 to |diags|
      invariant forall p :: Lookup(index, p) == DescribedOn(diags[..k], p)
    {
      var dr := diags[k];
      forall p
        ensures DescribedOn(diags[..k + 1], p)
             == DescribedOn(diags[..k], p) + (if dr.figure.pageNumber == p && dr.reading.description.Some? && dr.reading.description.value != []
                                               then [Described(dr.figure.bbox, dr.reading.description.value)] else [])
      {
        assert diags[..k + 1][..k] == diags[..k];
      }
      var d := dr.reading.description;
      if d.Some? && d.value != [] {
        var pg := dr.figure.pageNumber;
        index := index[pg := Lookup(index, pg) + [Described(dr.figure.bbox, d.value)]];
      }
    }
    assert diags[..|diags|] == diags;
  }

  function Abs(x: real): real { if x < 0.0 then -x else x }

  /** A diagram within 20 points of the image on both axes. */
  predicate Near(d: Described, x: real, y: real) {
    Abs(d.bbox.y - y) < 20.0 && Abs(d.bbox.x - x) < 20.0
  }

  /** The position of the first diagram near (x, y). */
  function FirstNear(ds: seq<Described>, x: real, y: real): (r: Option<nat>)
    ensures r.Some? ==> r.value < |ds| && Near(ds[r.value], x, y)
    ensures r.Some? ==> forall u :: 0 <= u < r.value ==> !Near(ds[u], x, y)
    ensures r.None? ==> forall u :: 0 <= u < |ds| ==> !Near(ds[u], x, y)
  {
    if ds == [] then None
    else if Near(ds[0], x, y) then Some(0)
    else
      var rest := FirstNear(ds[1..], x, y);
      assert forall u :: 0 < u < |ds| ==> ds[u] == ds[1..][u - 1];
      if rest.None? then None else Some(rest.value + 1)
  }

  /**
   * _find_diagram_description: the description of the first diagram of the
   * page near the image, which is never empty, or None when there is none.
   */
  function FindDescription(ds: seq<Described>, x: real, y: real): (r: Option<string>)
    ensures r.None? <==> forall u :: 0 <= u < |ds| ==> !Near(ds[u], x, y)
    ensures r.Some? ==> exists t :: 0 <= t < |ds| && Near(ds[t], x, y) && r.value == ds[t].description
  {
    var t := FirstNear(ds, x, y);
    if t.None? then None
    else
      assert Near(ds[t.value], x, y);
      Some(ds[t.value].description)
  }

  // ---------------------------------------------------------------------
  // Picking a segment
  // ---------------------------------------------------------------------

  /** Every position is a segment index. */
  predicate Within(ids: seq<nat>, n: nat) {
    forall t :: 0 <= t < |ids| ==> ids[t] < n
  }

  /** The indices of the segments of page p among the first k, in order. */
  function OnPage(base: seq<Segment>, p: int, k: nat): (r: seq<nat>)
    requires k <= |base|
    ensures Within(r, k) && forall t :: 0 <= t < |r| ==> base[r[t]].pageNumber == p
    ensures forall i :: 0 <= i < k && base[i].pageNumber == p ==> i in r
  {
    if k == 0 then [] else OnPage(base, p, k - 1) + (if base[k - 1].pageNumber == p then [k - 1] else [])
  }

  /** Those of ids whose segment mentions a figure, in order. */
  function Figures(base: seq<Segment>, ids: seq<nat>): (r: seq<nat>)
    requires Within(ids, |base|)
    ensures Within(r, |base|)
    ensures forall t :: 0 <= t < |r| ==> r[t] in ids && HasFigureReference(base[r[t]].text)
    ensures forall t :: 0 <= t < |ids| && HasFigureReference(base[ids[t]].text) ==> ids[t] in r
  {
    if ids == [] then []
    else
      var rest := Figures(base, ids[1..]);
      assert forall t :: 0 < t < |ids| ==> ids[t] == ids[1..][t - 1];
      (if HasFigureReference(base[ids[0]].text) then [ids[0]] else []) + rest
  }

  /**
   * The proximity score of a segment for an image at fraction f of the page
   * height; lower is better. A missing start counts as 0, a missing or zero
   * end as 1.
   */
  function Proximity(seg: Segment, f: real): real {
    var start := if seg.yStart.Some? then seg.yStart.value else 0.0;
    var end := if seg.yEnd.Some? && seg.yEnd.value != 0.0 then seg.yEnd.value else 1.0;
    if start <= f <= end then f - start
    else if f > end then (f - end) + 0.01
    else (start - f) + 0.5
  }

  /** min(..., key=...): the position of the first smallest score. */
  function FirstMin(xs: seq<real>): (r: Option<nat>)
    ensures r.None? <==> xs == []
    ensures r.Some? ==> r.value < |xs| && forall j :: 0 <= j < |xs| ==> xs[r.value] <= xs[j]
    ensures r.Some? ==> forall j :: 0 <= j < r.value ==> xs[r.value] < xs[j]
  {
    if xs == [] then None
    else
      var prior := FirstMin(xs[..|xs| - 1]);
      if prior.None? || xs[|xs| - 1] < xs[prior.value] then Some(|xs| - 1) else prior
  }

  function Scores(base: seq<Segment>, ids: seq<nat>, f: real): (r: seq<real>)
    requires Within(ids, |base|)
    ensures |r| == |ids| && forall t :: 0 <= t < |ids| ==> r[t] == Proximity(base[ids[t]], f)
  {
    seq(|ids|, t requires 0 <= t < |ids| => Proximity(base[ids[t]], f))
  }

  /**
   * _pick_best_segment: among the figure-mentioning segments when there are
   * any, otherwise among all the page's segments, the first one with the
   * lowest proximity score.
   */
  function PickBest(base: seq<Segment>, figs: seq<nat>, segs: seq<nat>, f: real): (r: Option<nat>)
    requires Within(figs, |base|) && Within(segs, |base|)
    ensures r.Some? ==> r.value < |base|
  {
    if figs != [] then
      var m := FirstMin(Scores(base, figs, f));
      Some(figs[m.value])
    else if segs != [] then
      var m := FirstMin(Scores(base, segs, f));
      Some(segs[m.value])
    else None
  }

  /**
   * The pick is None exactly when the page has no segment; otherwise it is
   * one of the page's segments, a figure-mentioning one when there is any,
   * with a score no higher than any other candidate's and lower than every
   * candidate before it.
   */
  lemma PickBestFacts(base: seq<Segment>, figs: seq<nat>, segs: seq<nat>, f: real)
    requires Within(figs, |base|) && Within(segs, |base|)
    requires forall t :: 0 <= t < |figs| ==> figs[t] in segs
    ensures var r := PickBest(base, figs, segs, f);
      && (r.None? <==> segs == [])
      && (r.Some? ==> r.value in segs)
      && (r.Some? && figs != [] ==> r.value in figs)
    ensures var r := PickBest(base, figs, segs, f);
      var cands := if figs != [] then figs else segs;
      r.Some? ==> exists m :: (0 <= m < |cands| && cands[m] == r.value
        && (forall t :: 0 <= t < |cands| ==> Proximity(base[r.value], f) <= Proximity(base[cands[t]], f))
        && (forall t :: 0 <= t < m ==> Proximity(base[r.value], f) < Proximity(base[cands[t]], f)))
  {
    var cands := if figs != [] then figs else segs;
    if figs != [] {
      assert figs[0] in segs;
    }
    if cands != [] {
      var scores := Scores(base, cands, f);
      var m := FirstMin(scores).value;
      assert scores[m] == Proximity(base[cands[m]], f);
    }
  }

  // ---------------------------------------------------------------------
  // Attaching images
  // ---------------------------------------------------------------------

  /** An image entry of a page dictionary; None stands for a missing key. */
  datatype PageImage = PageImage(
    imageUrl: Option<string>,
    imagePath: Option<string>,
    format: Option<string>,
    width: Option<int>,
    height: Option<int>,
    bbox: Option<map<string, real>>)

  /** What associate_images reads of a page dictionary. */
  datatype ImagePage = ImagePage(pageNumber: int, pageHeight: Option<real>, images: seq<PageImage>)

  /** bbox.get(key, 0). */
  function Get(m: map<string, real>, key: string): real {
    if key in m then m[key] else 0.0
  }

  /** page_height or 792.0, the height of a letter page in points. */
  function Height(h: Option<real>): (r: real)
    ensures r != 0.0
    ensures h.Some? && h.value != 0.0 ==> r == h.value
  {
    if h.Some? && h.value != 0.0 then h.value else 792.0
  }

  /** An image whose bbox is present and not empty. */
  predicate HasBox(img: PageImage) {
    img.bbox.Some? && img.bbox.value != map[]
  }

  /** The entry appended to a segment's images. */
  function ImageOf(img: PageImage, description: Option<string>): SegmentImage
    requires img.bbox.Some?
  {
    SegmentImage(img.imageUrl, img.imagePath,
                 if img.format.Some? then img.format.value else "png",
                 if img.width.Some? then img.width.value else 0,
                 if img.height.Some? then img.height.value else 0,
                 description, img.bbox.value)
  }

  /** The descriptions of the diagrams read, page by page. */
  function Descriptions(diagrams: Option<Schema.DocumentDiagramsResult>, p: int): seq<Described> {
    DescribedOn(DiagramsOf(diagrams), p)
  }

  /** The segment an image of the page goes to, chosen among the segments as parsed. */
  function Target(base: seq<Segment>, page: ImagePage, img: PageImage): Option<nat>
    requires HasBox(img)
  {
    var ids := OnPage(base, page.pageNumber, |base|);
    PickBest(base, Figures(base, ids), ids, Get(img.bbox.value, "y") / Height(page.pageHeight))
  }

  /** One image: appended to its target segment, with the description of a nearby diagram. */
  function AttachImage(segs: seq<Segment>, base: seq<Segment>, page: ImagePage, img: PageImage,
                       diagrams: Option<Schema.DocumentDiagramsResult>): seq<Segment>
    requires |segs| == |base|
  {
    if !HasBox(img) then segs
    else
      var best := Target(base, page, img);
      if best.None? then segs
      else
        var i := best.value;
        var d := FindDescription(Descriptions(diagrams, page.pageNumber), Get(img.bbox.value, "x"), Get(img.bbox.value, "y"));
        segs[i := segs[i].(images := segs[i].images + [ImageOf(img, d)])]
  }

  /** The first k images of a page, in order. */
  function AttachImages(segs: seq<Segment>, base: seq<Segment>, page: ImagePage, k: nat,
                        diagrams: Option<Schema.DocumentDiagramsResult>): (r: seq<Segment>)
    requires |segs| == |base| && k <= |page.images|
    ensures |r| == |base|
  {
    if k == 0 then segs
    else AttachImage(AttachImages(segs, base, page, k - 1, diagrams), base, page, page.images[k - 1], diagrams)
  }

  /** The images of the first k pages, in order. */
  function AttachPages(base: seq<Segment>, pages: seq<ImagePage>, k: nat,
                       diagrams: Option<Schema.DocumentDiagramsResult>): (r: seq<Segment>)
    requires k <= |pages|
    ensures |r| == |base|
  {
    if k == 0 then base
    else AttachImages(AttachPages(base, pages, k - 1, diagrams), base, pages[k - 1], |pages[k - 1].images|, diagrams)
  }

  /** A page without segments changes nothing. */
  lemma {:induction false} NoSegmentsNoChange(segs: seq<Segment>, base: seq<Segment>, page: ImagePage, k: nat,
                                              diagrams: Option<Schema.DocumentDiagramsResult>)
    requires |segs| == |base| && k <= |page.images|
    requires OnPage(base, page.pageNumber, |base|) == []
    ensures AttachImages(segs, base, page, k, diagrams) == segs
  {
    if k > 0 {
      NoSegmentsNoChange(segs, base, page, k - 1, diagrams);
    }
  }

  /**
   * associate_images: for each page that has segments and images, each image
   * with a bbox goes to the best segment of that page. The segments are
   * returned rather than updated in place.
   */
  method AssociateImages(segments: seq<Segment>, pages: seq<ImagePage>, diagrams: Option<Schema.DocumentDiagramsResult>)
    returns (out: seq<Segment>)
    ensures out == AttachPages(segments, pages, |pages|, diagrams)
  {
    var index := BuildDiagramIndex(diagrams);
    out := segments;
    for p := 0 to |pages|
      invariant |out| == |segments|
      invariant out == AttachPages(segments, pages, p, diagrams)
    {
      var page := pages[p];
      var segs := OnPage(segments, page.pageNumber, |segments|);
      if segs == [] {
        NoSegmentsNoChange(out, segments, page, |page.images|, diagrams);
      } else if page.images != [] {
        out := AttachPageImages(out, segments, page, segs, Figures(segments, segs), Lookup(index, page.pageNumber), diagrams);
      }
    }
  }

  /** The images of one page that has segments, in order; the page's segments and descriptions are looked up once. */
  method AttachPageImages(segs: seq<Segment>, base: seq<Segment>, page: ImagePage, ids: seq<nat>, figs: seq<nat>,
                          descs: seq<Described>, ghost diagrams: Option<Schema.DocumentDiagramsResult>)
    returns (out: seq<Segment>)
    requires |segs| == |base|
    requires ids == OnPage(base, page.pageNumber, |base|) && figs == Figures(base, ids)
    requires descs == Descriptions(diagrams, page.pageNumber)
    ensures out == AttachImages(segs, base, page, |page.images|, diagrams)
  {
    var height := Height(page.pageHeight);
    out := segs;
    for k := 0 to |page.images|
      invariant out == AttachImages(segs, base, page, k, diagrams)
    {
      var img := page.images[k];
      if HasBox(img) {
        out := AttachOne(out, base, page, img, ids, figs, descs, height, diagrams);
      }
    }
  }

  /** One image with a bbox: appended, with its description, to the best segment of the page, if there is one. */
  method AttachOne(segs: seq<Segment>, base: seq<Segment>, page: ImagePage, img: PageImage, ids: seq<nat>, figs: seq<nat>,
                   descs: seq<Described>, height: real, ghost diagrams: Option<Schema.DocumentDiagramsResult>)
    returns (out: seq<Segment>)
    requires |segs| == |base| && HasBox(img)
    requires ids == OnPage(base, page.pageNumber, |base|) && figs == Figures(base, ids)
    requires descs == Descriptions(diagrams, page.pageNumber) && height == Height(page.pageHeight)
    ensures out == AttachImage(segs, base, page, img, diagrams)
  {
    var y := Get(img.bbox.value, "y");
    var best := PickBest(base, figs, ids, y / height);
    out := segs;
    if best.Some? {
      var description := FindDescription(descs, Get(img.bbox.value, "x"), y);
      var i := best.value;
      out := out[i := out[i].(images := out[i].images + [ImageOf(img, description)])];
    }
  }

  // ---------------------------------------------------------------------
  // What association keeps
  // ---------------------------------------------------------------------

  /** Each segment is the parsed one with images appended to its own. */
  predicate Grown(base: seq<Segment>, segs: seq<Segment>) {
    |segs| == |base| &&
    forall i :: 0 <= i < |base| ==>
      segs[i] == base[i].(images := segs[i].images) && base[i].images <= segs[i].images
  }

  /** Each segment of a page other than p is as it was. */
  predicate SameOff(segs: seq<Segment>, r: seq<Segment>, base: seq<Segment>, p: int)
    requires |segs| == |base| == |r|
  {
    forall i :: 0 <= i < |base| && base[i].pageNumber != p ==> r[i] == segs[i]
  }

  /** The segment an image goes to is on the image's page; there is one exactly when the page has a segment. */
  lemma TargetOnPage(base: seq<Segment>, page: ImagePage, img: PageImage)
    requires HasBox(img)
    ensures Target(base, page, img).None? <==> OnPage(base, page.pageNumber, |base|) == []
    ensures Target(base, page, img).Some? ==> base[Target(base, page, img).value].pageNumber == page.pageNumber
  {
    var ids := OnPage(base, page.pageNumber, |base|);
    PickBestFacts(base, Figures(base, ids), ids, Get(img.bbox.value, "y") / Height(page.pageHeight));
  }

  /** Appending one image to segment i keeps the segments grown and changes no other segment. */
  lemma AppendGrows(base: seq<Segment>, segs: seq<Segment>, i: nat, x: SegmentImage)
    requires Grown(base, segs) && i < |segs|
    ensures Grown(base, segs[i := segs[i].(images := segs[i].images + [x])])
    ensures SameOff(segs, segs[i := segs[i].(images := segs[i].images + [x])], base, base[i].pageNumber)
  {
    assert base[i].images <= segs[i].images <= segs[i].images + [x];
  }

  lemma AttachImageGrows(segs: seq<Segment>, base: seq<Segment>, page: ImagePage, img: PageImage,
                         diagrams: Option<Schema.DocumentDiagramsResult>)
    requires Grown(base, segs)
    ensures Grown(base, AttachImage(segs, base, page, img, diagrams))
    ensures SameOff(segs, AttachImage(segs, base, page, img, diagrams), base, page.pageNumber)
  {
    if HasBox(img) {
      TargetOnPage(base, page, img);
      if Target(base, page, img).Some? {
        var d := FindDescription(Descriptions(diagrams, page.pageNumber), Get(img.bbox.value, "x"), Get(img.bbox.value, "y"));
        AppendGrows(base, segs, Target(base, page, img).value, ImageOf(img, d));
      }
    }
  }

  lemma {:induction false} AttachImagesGrows(segs: seq<Segment>, base: seq<Segment>, page: ImagePage, k: nat,
                                             diagrams: Option<Schema.DocumentDiagramsResult>)
    requires Grown(base, segs) && k <= |page.images|
    ensures Grown(base, AttachImages(segs, base, page, k, diagrams))
    ensures SameOff(segs, AttachImages(segs, base, page, k, diagrams), base, page.pageNumber)
  {
    if k > 0 {
      var prior := AttachImages(segs, base, page, k - 1, diagrams);
      AttachImagesGrows(segs, base, page, k - 1, diagrams);
      AttachImageGrows(prior, base, page, page.images[k - 1], diagrams);
    }
  }

  /** A segment whose page number no page carries. */
  predicate Unvisited(pages: seq<ImagePage>, k: nat, p: int)
    requires k <= |pages|
  {
    forall q :: 0 <= q < k ==> pages[q].pageNumber != p
  }

  /**
   * Association changes only the images of a segment, by appending to them,
   * and leaves the segments of pages that were not given as they were.
   */
  lemma {:induction false} AssociateKeeps(base: seq<Segment>, pages: seq<ImagePage>, k: nat,
                                          diagrams: Option<Schema.DocumentDiagramsResult>)
    requires k <= |pages|
    ensures Grown(base, AttachPages(base, pages, k, diagrams))
    ensures forall i :: 0 <= i < |base| && Unvisited(pages, k, base[i].pageNumber) ==>
      AttachPages(base, pages, k, diagrams)[i] == base[i]
  {
    if k > 0 {
      var prior := AttachPages(base, pages, k - 1, diagrams);
      AssociateKeeps(base, pages, k - 1, diagrams);
      AttachImagesGrows(prior, base, pages[k - 1], |pages[k - 1].images|, diagrams);
    }
  }

  /** No page image has a bbox (as with pages that list no images). */
  predicate NoBoxes(pages: seq<ImagePage>) {
    forall q, t :: 0 <= q < |pages| && 0 <= t < |pages[q].images| ==> !HasBox(pages[q].images[t])
  }

  lemma {:induction false} NoBoxesPage(segs: seq<Segment>, base: seq<Segment>, page: ImagePage, k: nat,
                                       diagrams: Option<Schema.DocumentDiagramsResult>)
    requires |segs| == |base| && k <= |page.images|
    requires forall t :: 0 <= t < |page.images| ==> !HasBox(page.images[t])
    ensures AttachImages(segs, base, page, k, diagrams) == segs
  {
    if k > 0 {
      NoBoxesPage(segs, base, page, k - 1, diagrams);
    }
  }

  /** Images without a bbox are skipped: when no image has one, nothing changes. */
  lemma {:induction false} NoBoxesNoChange(base: seq<Segment>, pages: seq<ImagePage>, k: nat,
                                           diagrams: Option<Schema.DocumentDiagramsResult>)
    requires k <= |pages| && NoBoxes(pages)
    ensures AttachPages(base, pages, k, diagrams) == base
  {
    if k > 0 {
      NoBoxesNoChange(base, pages, k - 1, diagrams);
      NoBoxesPage(base, base, pages[k - 1], |pages[k - 1].images|, diagrams);
    }
  }

  // ---------------------------------------------------------------------
  // No image lost, none duplicated
  // ---------------------------------------------------------------------

  /** The number of images held by the segments. */
  function ImageCount(segs: seq<Segment>): nat {
    if segs == [] then 0 else ImageCount(segs[..|segs| - 1]) + |segs[|segs| - 1].images|
  }

  lemma {:induction false} ImageCountUpdate(segs: seq<Segment>, i: nat, s: Segment)
    requires i < |segs|
    ensures ImageCount(segs[i := s]) + |segs[i].images| == ImageCount(segs) + |s.images|
    decreases |segs|
  {
    var n := |segs| - 1;
    if i < n {
      assert segs[i := s][..n] == segs[..n][i := s];
      ImageCountUpdate(segs[..n], i, s);
    } else {
      assert segs[i := s][..n] == segs[..n];
    }
  }

  /** Whether an image is attached: it has a bbox and its page has a segment. */
  predicate Placed(base: seq<Segment>, page: ImagePage, img: PageImage) {
    HasBox(img) && OnPage(base, page.pageNumber, |base|) != []
  }

  /** The number of images of the first k of a page that are placed. */
  function PlacedOf(base: seq<Segment>, page: ImagePage, k: nat): nat
    requires k <= |page.images|
  {
    if k == 0 then 0 else PlacedOf(base, page, k - 1) + (if Placed(base, page, page.images[k - 1]) then 1 else 0)
  }

  /** The number of placed images on the first k pages. */
  function PlacedAll(base: seq<Segment>, pages: seq<ImagePage>, k: nat): nat
    requires k <= |pages|
  {
    if k == 0 then 0 else PlacedAll(base, pages, k - 1) + PlacedOf(base, pages[k - 1], |pages[k - 1].images|)
  }

  lemma AttachImageCount(segs: seq<Segment>, base: seq<Segment>, page: ImagePage, img: PageImage,
                         diagrams: Option<Schema.DocumentDiagramsResult>)
    requires |segs| == |base|
    ensures ImageCount(AttachImage(segs, base, page, img, diagrams))
         == ImageCount(segs) + (if Placed(base, page, img) then 1 else 0)
  {
    if HasBox(img) {
      TargetOnPage(base, page, img);
      if Target(base, page, img).Some? {
        var i := Target(base, page, img).value;
        var d := FindDescription(Descriptions(diagrams, page.pageNumber), Get(img.bbox.value, "x"), Get(img.bbox.value, "y"));
        ImageCountUpdate(segs, i, segs[i].(images := segs[i].images + [ImageOf(img, d)]));
      }
    }
  }

  lemma {:induction false} AttachImagesCount(segs: seq<Segment>, base: seq<Segment>, page: ImagePage, k: nat,
                                             diagrams: Option<Schema.DocumentDiagramsResult>)
    requires |segs| == |base| && k <= |page.images|
    ensures ImageCount(AttachImages(segs, base, page, k, diagrams)) == ImageCount(segs) + PlacedOf(base, page, k)
  {
    if k > 0 {
      AttachImagesCount(segs, base, page, k - 1, diagrams);
      AttachImageCount(AttachImages(segs, base, page, k - 1, diagrams), base, page, page.images[k - 1], diagrams);
    }
  }

  /**
   * Every image with a bbox on a page that has segments is attached exactly
   * once, and no other image is attached.
   */
  lemma {:induction false} AssociateCount(base: seq<Segment>, pages: seq<ImagePage>, k: nat,
                                          diagrams: Option<Schema.DocumentDiagramsResult>)
    requires k <= |pages|
    ensures ImageCount(AttachPages(base, pages, k, diagrams)) == ImageCount(base) + PlacedAll(base, pages, k)
  {
    if k > 0 {
      AssociateCount(base, pages, k - 1, diagrams);
      AttachImagesCount(AttachPages(base, pages, k - 1, diagrams), base, pages[k - 1], |pages[k - 1].images|, diagrams);
    }
  }
}
