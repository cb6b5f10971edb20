/**
 * The consolidated report built from an extraction result: the document
 * header, a quality summary over every gated page, the approved pages with a
 * text preview, the diagrams that were read without error, a preview of the
 * full text and the statistics.
 */
module Consolidated {
  import opened Wrappers
  import opened Schema

  const TextPreviewChars: int := 500
  const FullTextPreviewChars: int := 5000

  /** Python's s[:n]: the first n characters, or, for a negative n, all but the last -n. */
  function PyPrefix(s: string, n: int): string {
    if n >= 0 then (if n <= |s| then s[..n] else s)
    else if |s| + n >= 0 then s[..|s| + n] else []
  }

  /** A preview: the first n characters, with "..." appended only when something was cut. */
  function Preview(text: string, n: int): string {
    PyPrefix(text, n) + (if |text| > n then "..." else "")
  }

  /**
   * For a non-negative limit a preview is at most three characters longer
   * than the limit, is the whole text when it fits, and otherwise is the
   * text's first n characters followed by "...".
   */
  lemma PreviewFacts(text: string, n: int)
    requires n >= 0
    ensures |Preview(text, n)| <= n + 3
    ensures |text| <= n ==> Preview(text, n) == text
    ensures |text| > n ==> Preview(text, n) == text[..n] + "..."
  {
  }

  /** The page numbers of the approved gates, in order. */
  function ApprovedNumbers(gates: seq<QualityGate>): (r: seq<int>)
    ensures |r| <= |gates|
  {
    if gates == [] then []
    else (if gates[0].status == Approved then [gates[0].pageNumber] else []) + ApprovedNumbers(gates[1..])
  }

  function ReviewEntryOf(g: QualityGate): ReviewEntry {
    ReviewEntry(g.pageNumber, g.failedGates, g.layout, g.status)
  }

  /** The gates that were not approved, as review entries, in order. */
  function NeedsReview(gates: seq<QualityGate>): (r: seq<ReviewEntry>)
    ensures |r| <= |gates|
  {
    if gates == [] then []
    else (if gates[0].status != Approved then [ReviewEntryOf(gates[0])] else []) + NeedsReview(gates[1..])
  }

  /** Every gate is counted once: approved or needing review. */
  lemma {:induction false} ApprovedSplit(gates: seq<QualityGate>)
    ensures |ApprovedNumbers(gates)| + |NeedsReview(gates)| == |gates|
  {
    if gates != [] {
      ApprovedSplit(gates[1..]);
    }
  }

  /** A page number is listed as approved exactly when some gate with that number is approved. */
  lemma {:induction false} ApprovedMembers(gates: seq<QualityGate>, p: int)
    ensures p in ApprovedNumbers(gates) <==> exists i :: 0 <= i < |gates| && gates[i].pageNumber == p && gates[i].status == Approved
  {
    if gates != [] {
      ApprovedMembers(gates[1..], p);
      if p in ApprovedNumbers(gates[1..]) {
        var i :| 0 <= i < |gates[1..]| && gates[1..][i].pageNumber == p && gates[1..][i].status == Approved;
        assert gates[i + 1] == gates[1..][i];
      }
      if exists i :: 0 <= i < |gates| && gates[i].pageNumber == p && gates[i].status == Approved {
        var i :| 0 <= i < |gates| && gates[i].pageNumber == p && gates[i].status == Approved;
        if i > 0 {
          assert gates[1..][i - 1] == gates[i];
        }
      }
    }
  }

  /** Every review entry is a gate that was not approved, and every such gate has one. */
  lemma {:induction false} NeedsReviewMembers(gates: seq<QualityGate>, e: ReviewEntry)
    ensures e in NeedsReview(gates) <==> exists i :: 0 <= i < |gates| && gates[i].status != Approved && e == ReviewEntryOf(gates[i])
  {
    if gates != [] {
      NeedsReviewMembers(gates[1..], e);
      if e in NeedsReview(gates[1..]) {
        var i :| 0 <= i < |gates[1..]| && gates[1..][i].status != Approved && e == ReviewEntryOf(gates[1..][i]);
        assert gates[i + 1] == gates[1..][i];
      }
      if exists i :: 0 <= i < |gates| && gates[i].status != Approved && e == ReviewEntryOf(gates[i]) {
        var i :| 0 <= i < |gates| && gates[i].status != Approved && e == ReviewEntryOf(gates[i]);
        if i > 0 {
          assert gates[1..][i - 1] == gates[i];
        }
      }
    }
  }

  /** The quality summary of a quality result. */
  function SummaryOf(q: QualityResult): (s: QualitySummary)
    ensures s.pagesTotal == |q.pages| == s.approvedCount + s.needsReviewCount
    ensures s.approvedCount == |s.approvedPageNumbers| && s.needsReviewCount == |s.needsReviewPages|
    ensures s.status == q.status && s.strict == q.strict
  {
    var approved := ApprovedNumbers(q.pages);
    var review := NeedsReview(q.pages);
    ApprovedSplit(q.pages);
    QualitySummary(q.status, q.strict, |q.pages|, |approved|, |review|, approved, review)
  }

  function HighQualityPageOf(page: Page, n: int): HighQualityPage {
    HighQualityPage(page.pageNumber, page.source, Preview(page.text, n), Approved)
  }

  /** The result pages whose number was approved, in result-page order, with their previews. */
  function HighQualityPages(pages: seq<Page>, approved: set<int>, n: int): seq<HighQualityPage> {
    if pages == [] then []
    else
      (if pages[0].pageNumber in approved then [HighQualityPageOf(pages[0], n)] else [])
        + HighQualityPages(pages[1..], approved, n)
  }

  /**
   * high_quality_pages keeps exactly the approved pages, in order: the list
   * is the approved pages' entries, each marked approved.
   */
  lemma {:induction false} HighQualityPagesFacts(pages: seq<Page>, approved: set<int>, n: int)
    ensures var r := HighQualityPages(pages, approved, n);
      (forall i :: 0 <= i < |pages| && pages[i].pageNumber in approved ==> HighQualityPageOf(pages[i], n) in r)
      && (forall h :: h in r ==>
            (h.qualityStatus == Approved && h.pageNumber in approved
             && exists i :: 0 <= i < |pages| && h == HighQualityPageOf(pages[i], n)))
  {
    if pages != [] {
      HighQualityPagesFacts(pages[1..], approved, n);
      var r := HighQualityPages(pages, approved, n);
      var rest := HighQualityPages(pages[1..], approved, n);
      forall i | 0 <= i < |pages| && pages[i].pageNumber in approved
        ensures HighQualityPageOf(pages[i], n) in r
      {
        if i > 0 {
          assert pages[1..][i - 1] == pages[i];
        }
      }
      forall h | h in r
        ensures exists i :: 0 <= i < |pages| && h == HighQualityPageOf(pages[i], n)
      {
        if h in rest {
          var j :| 0 <= j < |pages[1..]| && h == HighQualityPageOf(pages[1..][j], n);
          assert pages[j + 1] == pages[1..][j];
        } else {
          assert h == HighQualityPageOf(pages[0], n);
        }
      }
    }
  }

  /** A diagram is of high quality when it was read without error and described. */
  predicate HighQualityReading(read: DiagramReading) {
    read.error.None? && read.description.Some? && read.description.value != []
  }

  function HighQualityDiagramOf(dr: DiagramResult): HighQualityDiagram
    requires dr.reading.description.Some?
  {
    HighQualityDiagram(dr.figure.pageNumber, dr.figure.bbox, dr.figure.area, dr.reading.description.value, dr.reading.kind)
  }

  /** The diagrams read without error and with a description, in order. */
  function HighQualityDiagrams(ds: seq<DiagramResult>): seq<HighQualityDiagram> {
    if ds == [] then []
    else
      (if HighQualityReading(ds[0].reading) then [HighQualityDiagramOf(ds[0])] else [])
        + HighQualityDiagrams(ds[1..])
  }

  /**
   * Every kept diagram carries a non-empty description and comes from a
   * well-read diagram, and every well-read diagram is kept.
   */
  lemma {:induction false} HighQualityDiagramsFacts(ds: seq<DiagramResult>)
    ensures forall h :: h in HighQualityDiagrams(ds) ==> h.description != []
    ensures forall h :: h in HighQualityDiagrams(ds) ==>
      exists i :: 0 <= i < |ds| && HighQualityReading(ds[i].reading) && h == HighQualityDiagramOf(ds[i])
    ensures forall i :: 0 <= i < |ds| && HighQualityReading(ds[i].reading) ==> HighQualityDiagramOf(ds[i]) in HighQualityDiagrams(ds)
    ensures |HighQualityDiagrams(ds)| <= |ds|
  {
    if ds != [] {
      HighQualityDiagramsFacts(ds[1..]);
      forall i | 0 <= i < |ds| && HighQualityReading(ds[i].reading)
        ensures HighQualityDiagramOf(ds[i]) in HighQualityDiagrams(ds)
      {
        if i > 0 {
          assert ds[1..][i - 1] == ds[i];
        }
      }
      forall h | h in HighQualityDiagrams(ds)
        ensures exists i :: 0 <= i < |ds| && HighQualityReading(ds[i].reading) && h == HighQualityDiagramOf(ds[i])
      {
        if h !in HighQualityDiagrams(ds[1..]) {
          assert HighQualityReading(ds[0].reading) && h == HighQualityDiagramOf(ds[0]);
        } else {
          var j :| 0 <= j < |ds[1..]| && HighQualityReading(ds[1..][j].reading) && h == HighQualityDiagramOf(ds[1..][j]);
          assert ds[1..][j] == ds[j + 1];
        }
      }
    }
  }

  /** build_consolidated_report. */
  function BuildConsolidatedReport(result: ExtractionResult, fullOutputPath: Option<string>,
                                   textPreviewChars: int, fullTextPreviewChars: int): (r: ConsolidatedReport)
    ensures r.document == DocumentInfo(result.filename, result.docId, result.extraction.pagesTotal, result.ingestedAt)
    ensures result.quality.None? ==> r.qualitySummary.None? && r.highQualityPages == []
    ensures result.quality.Some? ==>
      && r.qualitySummary.Some?
      && r.qualitySummary.value.pagesTotal == |result.quality.value.pages|
      && r.qualitySummary.value.approvedCount + r.qualitySummary.value.needsReviewCount == |result.quality.value.pages|
    ensures result.diagrams.None? ==> r.highQualityDiagrams == []
    ensures r.fullTextPreview.None? <==> result.fullText == []
    ensures result.fullText != [] && fullTextPreviewChars >= 0 ==> |r.fullTextPreview.value| <= fullTextPreviewChars + 3
    ensures r.stats == Some(result.stats) && r.fullOutputPath == fullOutputPath
  {
    var doc := DocumentInfo(result.filename, result.docId, result.extraction.pagesTotal, result.ingestedAt);
    var summary := if result.quality.Some? then Some(SummaryOf(result.quality.value)) else None;
    var pages :=
      if result.quality.Some?
      then HighQualityPages(result.pages, (set p | p in ApprovedNumbers(result.quality.value.pages)), textPreviewChars)
      else [];
    var diagrams := if result.diagrams.Some? then HighQualityDiagrams(result.diagrams.value.diagrams) else [];
    var preview := if result.fullText != [] then Some(Preview(result.fullText, fullTextPreviewChars)) else None;
    ConsolidatedReport(doc, summary, pages, diagrams, preview, Some(result.stats), fullOutputPath)
  }

  /**
   * The report's high-quality pages: each is a result page for which some
   * gate with its number was approved, and every such result page is listed.
   */
  lemma ReportHighQualityPages(result: ExtractionResult, fullOutputPath: Option<string>,
                               textPreviewChars: int, fullTextPreviewChars: int)
    requires result.quality.Some?
    ensures var r := BuildConsolidatedReport(result, fullOutputPath, textPreviewChars, fullTextPreviewChars);
      var gates := result.quality.value.pages;
      && (forall h :: h in r.highQualityPages ==>
            exists i, j :: 0 <= i < |result.pages| && 0 <= j < |gates|
              && h == HighQualityPageOf(result.pages[i], textPreviewChars)
              && gates[j].pageNumber == h.pageNumber && gates[j].status == Approved)
      && (forall i, j :: 0 <= i < |result.pages| && 0 <= j < |gates|
            && gates[j].pageNumber == result.pages[i].pageNumber && gates[j].status == Approved
            ==> HighQualityPageOf(result.pages[i], textPreviewChars) in r.highQualityPages)
  {
    var gates := result.quality.value.pages;
    var approved := set p | p in ApprovedNumbers(gates);
    HighQualityPagesFacts(result.pages, approved, textPreviewChars);
    forall p ensures p in approved <==> exists j :: 0 <= j < |gates| && gates[j].pageNumber == p && gates[j].status == Approved {
      ApprovedMembers(gates, p);
    }
  }

  /**
   * The report's high-quality diagrams: each comes from a diagram of the
   * result read without error and with a description, and every such
   * diagram is listed.
   */
  lemma ReportHighQualityDiagrams(result: ExtractionResult, fullOutputPath: Option<string>,
                                  textPreviewChars: int, fullTextPreviewChars: int)
    requires result.diagrams.Some?
    ensures var r := BuildConsolidatedReport(result, fullOutputPath, textPreviewChars, fullTextPreviewChars);
      var ds := result.diagrams.value.diagrams;
      && (forall h :: h in r.highQualityDiagrams ==>
            h.description != []
            && exists i :: 0 <= i < |ds| && HighQualityReading(ds[i].reading) && h == HighQualityDiagramOf(ds[i]))
      && (forall i :: 0 <= i < |ds| && HighQualityReading(ds[i].reading) ==> HighQualityDiagramOf(ds[i]) in r.highQualityDiagrams)
  {
    HighQualityDiagramsFacts(result.diagrams.value.diagrams);
  }
}
