/**
 * The records of the extraction payload. String-valued fields whose values
 * come from a fixed set ("tika"/"ocr", "approved"/"needs_review", "A"/"B",
 * the layout and gate names) are enumerations here; their names give the
 * strings.
 */
module Schema {
  import opened Wrappers

  datatype BBox = BBox(x: int, y: int, w: int, h: int)

  datatype Token = Token(text: string, bbox: BBox, confidence: real)

  /** [t["confidence"] for t in tokens] */
  function Confidences(tokens: seq<Token>): (r: seq<real>)
    ensures |r| == |tokens|
  {
    seq(|tokens|, i requires 0 <= i < |tokens| => tokens[i].confidence)
  }

  /** [t["text"] for t in tokens] */
  function TokenTexts(tokens: seq<Token>): (r: seq<string>)
    ensures |r| == |tokens|
  {
    seq(|tokens|, i requires 0 <= i < |tokens| => tokens[i].text)
  }

  lemma TokenListsAppend(tokens: seq<Token>, t: Token)
    ensures Confidences(tokens + [t]) == Confidences(tokens) + [t.confidence]
    ensures TokenTexts(tokens + [t]) == TokenTexts(tokens) + [t.text]
  {
    assert Confidences(tokens + [t])[..|tokens|] == Confidences(tokens);
    assert TokenTexts(tokens + [t])[..|tokens|] == TokenTexts(tokens);
  }

  /** Page.source and QualityGate.selected_source. */
  datatype Source = Tika | Ocr

  function SourceName(s: Source): string {
    match s
    case Tika => "tika"
    case Ocr => "ocr"
  }

  datatype Page = Page(pageNumber: int, source: Source, text: string, tokens: seq<Token>)

  /** A Page built without tokens gets the empty token list. */
  function NewPage(pageNumber: int, source: Source, text: string): (p: Page)
    ensures p.tokens == []
    ensures p.pageNumber == pageNumber && p.source == source && p.text == text
  {
    Page(pageNumber, source, text, [])
  }

  datatype ExtractionMetadata = ExtractionMetadata(extractionMethod: string, pagesTotal: int, dpi: Option<int>, engine: string)

  datatype Stats = Stats(totalTokens: int, avgConfidence: Option<real>)

  /** Page layout classes. */
  datatype Layout = TextLayout | TableLayout | NoisyLayout

  function LayoutName(l: Layout): string {
    match l
    case TextLayout => "text"
    case TableLayout => "table"
    case NoisyLayout => "noisy"
  }

  datatype Status = Approved | NeedsReview

  function StatusName(s: Status): string {
    match s
    case Approved => "approved"
    case NeedsReview => "needs_review"
  }

  /** QualityGate.decision: "A" keeps the text layer, "B" takes OCR. */
  datatype Decision = DecisionA | DecisionB

  /** The names a page can carry in failed_gates. */
  datatype Gate = AvgConfidenceGate | LowConfRatioGate | DualPassSimilarityGate | TikaSimilarityGate

  function GateName(g: Gate): string {
    match g
    case AvgConfidenceGate => "avg_confidence"
    case LowConfRatioGate => "low_conf_ratio"
    case DualPassSimilarityGate => "dual_pass_similarity"
    case TikaSimilarityGate => "tika_similarity"
  }

  /** The OCR strategy dictionary (best_strategy); a key that is absent is None. */
  datatype Strategy = Strategy(
    name: Option<string>,
    psm: Option<int>,
    threshold: Option<int>,
    useOsd: Option<bool>,
    medianSize: Option<int>,
    unsharp: Option<(int, int, int)>,
    autocontrastCutoff: Option<int>,
    psmCandidates: Option<seq<int>>,
    consensusCandidates: Option<int>,
    tableCells: Option<int>,
    dpi: Option<int>,
    attempt: Option<int>)

  /** The empty dictionary {}. */
  const EmptyStrategy: Strategy :=
    Strategy(None, None, None, None, None, None, None, None, None, None, None, None)

  datatype QualityGate = QualityGate(
    pageNumber: int,
    status: Status,
    layout: Option<Layout>,
    avgConfidence: Option<real>,
    lowConfRatio: Option<real>,
    dualPassSimilarity: Option<real>,
    tikaSimilarity: Option<real>,
    failedGates: seq<Gate>,
    retryAttempts: int,
    bestStrategy: Option<Strategy>,
    accuracyScore: Option<real>,
    decision: Option<Decision>,
    selectedSource: Option<Source>)

  /** A QualityGate built from a page number and status only: no failed gates, no retries, no metrics. */
  function NewQualityGate(pageNumber: int, status: Status): (g: QualityGate)
    ensures g.failedGates == [] && g.retryAttempts == 0
    ensures g.layout.None? && g.avgConfidence.None? && g.lowConfRatio.None?
    ensures g.dualPassSimilarity.None? && g.tikaSimilarity.None? && g.bestStrategy.None?
    ensures g.accuracyScore.None? && g.decision.None? && g.selectedSource.None?
    ensures g.pageNumber == pageNumber && g.status == status
  {
    QualityGate(pageNumber, status, None, None, None, None, None, [], 0, None, None, None, None)
  }

  datatype QualityResult = QualityResult(
    status: Status,
    strict: bool,
    minAvgConfidence: real,
    maxLowConfRatio: real,
    minDualPassSimilarity: real,
    minTikaSimilarity: real,
    pages: seq<QualityGate>)

  /** A bounding box dictionary with x, y, w, h in points. */
  datatype Rect = Rect(x: real, y: real, w: real, h: real)

  datatype FigureInfo = FigureInfo(pageNumber: int, bbox: Rect, area: real, imagePath: Option<string>)

  /** The structure and chart_data dictionaries are kept as their JSON text. */
  datatype DiagramReading = DiagramReading(
    description: Option<string>,
    structure: Option<string>,
    chartData: Option<string>,
    kind: Option<string>,
    error: Option<string>)

  datatype DiagramResult = DiagramResult(figure: FigureInfo, reading: DiagramReading)

  datatype DocumentDiagramsResult = DocumentDiagramsResult(
    docId: string,
    filename: string,
    figuresTotal: int,
    diagrams: seq<DiagramResult>,
    ingestedAt: string)

  datatype ExtractionResult = ExtractionResult(
    docId: string,
    filename: string,
    ingestedAt: string,
    extraction: ExtractionMetadata,
    pages: seq<Page>,
    fullText: string,
    stats: Stats,
    quality: Option<QualityResult>,
    diagrams: Option<DocumentDiagramsResult>)

  /** An ExtractionResult built without quality or diagrams has neither. */
  function NewExtractionResult(docId: string, filename: string, ingestedAt: string,
                               extraction: ExtractionMetadata, pages: seq<Page>,
                               fullText: string, stats: Stats): (r: ExtractionResult)
    ensures r.quality.None? && r.diagrams.None?
    ensures r.pages == pages && r.fullText == fullText && r.stats == stats
  {
    ExtractionResult(docId, filename, ingestedAt, extraction, pages, fullText, stats, None, None)
  }

  /** One entry of QualitySummary.needs_review_pages. */
  datatype ReviewEntry = ReviewEntry(pageNumber: int, failedGates: seq<Gate>, layout: Option<Layout>, status: Status)

  datatype QualitySummary = QualitySummary(
    status: Status,
    strict: bool,
    pagesTotal: int,
    approvedCount: int,
    needsReviewCount: int,
    approvedPageNumbers: seq<int>,
    needsReviewPages: seq<ReviewEntry>)

  datatype HighQualityPage = HighQualityPage(pageNumber: int, source: Source, textPreview: string, qualityStatus: Status)

  datatype HighQualityDiagram = HighQualityDiagram(pageNumber: int, bbox: Rect, area: real, description: string, kind: Option<string>)

  /** ConsolidatedReport.document: filename, doc_id, pages_total, ingested_at. */
  datatype DocumentInfo = DocumentInfo(filename: string, docId: string, pagesTotal: int, ingestedAt: string)

  datatype ConsolidatedReport = ConsolidatedReport(
    document: DocumentInfo,
    qualitySummary: Option<QualitySummary>,
    highQualityPages: seq<HighQualityPage>,
    highQualityDiagrams: seq<HighQualityDiagram>,
    fullTextPreview: Option<string>,
    stats: Option<Stats>,
    fullOutputPath: Option<string>)

  /** A ConsolidatedReport built from its document alone: empty lists, nothing else. */
  function NewConsolidatedReport(document: DocumentInfo): (r: ConsolidatedReport)
    ensures r.highQualityPages == [] && r.highQualityDiagrams == []
    ensures r.qualitySummary.None? && r.fullTextPreview.None? && r.stats.None? && r.fullOutputPath.None?
    ensures r.document == document
  {
    ConsolidatedReport(document, None, [], [], None, None, None)
  }
}
