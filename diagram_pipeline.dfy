/**
 * The diagram pipeline: figures are extracted from a validated PDF and each
 * one is read by the vision-language model, giving one diagram result per
 * figure, in figure order, with the reason the reading is missing when it is.
 *
 * The VLM is an input: whether its module could be imported, whether it is
 * configured, and what its calls answer for an image. The thread pool is a
 * sequential map, which is what executor.map gives back.
 */
module DiagramPipeline {
  import opened Wrappers
  import opened Text
  import opened Utils
  import Schema
  import Config
  import FigureExtract
  import Consolidated

  type Bytes = seq<bv8>

  const DefaultWorkers: int := 5
  const NotConfigured: string := "VLM not configured (set OPENAI_API_KEY)"
  const DescribeFailed: string := "VLM describe failed"
  const Disabled: string := "VLM disabled"
  const NoImage: string := "No image"

  /** _default_vlm_workers: VLM_WORKERS clamped into [1, 20]; 5 when unset or not a number. */
  function DefaultVlmWorkers(env: Config.Env): (n: int)
    ensures 1 <= n <= 20
    ensures "VLM_WORKERS" !in env ==> n == DefaultWorkers
    ensures "VLM_WORKERS" in env && ParseInt(env["VLM_WORKERS"]).None? ==> n == DefaultWorkers
    ensures "VLM_WORKERS" in env && ParseInt(env["VLM_WORKERS"]).Some? ==>
      n == Config.Max(1, Config.Min(20, ParseInt(env["VLM_WORKERS"]).value))
  {
    Config.EnvInt(env, "VLM_WORKERS", DefaultWorkers, 1, 20)
  }

  /** A figure dictionary as the pipeline reads it; "image" may be missing. */
  datatype FigureInput = FigureInput(pageNumber: int, bbox: Schema.Rect, area: real, image: Option<Bytes>)

  /** The structure reply once json.loads accepted it: its JSON text and its "type" entry. */
  datatype StructureJson = StructureJson(json: string, kind: Option<string>)

  /**
   * What the VLM answers for one image: the description, the structure
   * reply, what json.loads made of that reply (None when it raised), and
   * the chart data.
   */
  datatype VlmAnswer = VlmAnswer(
    describe: Option<string>,
    structureText: Option<string>,
    structureParsed: Option<StructureJson>,
    chartData: Option<string>)

  /** The VLM module: imported or not, configured or not, and its answer per image. */
  datatype Vlm = Vlm(imported: bool, configured: bool, answer: Bytes -> VlmAnswer)

  function InfoOf(fig: FigureInput): (info: Schema.FigureInfo)
    ensures info.pageNumber == fig.pageNumber && info.bbox == fig.bbox && info.area == fig.area
    ensures info.imagePath.None?
  {
    Schema.FigureInfo(fig.pageNumber, fig.bbox, fig.area, None)
  }

  /** The structure is kept only when the stripped reply starts with "{" and parses. */
  function StructureOf(a: VlmAnswer): (s: Option<StructureJson>)
    ensures s.Some? ==> a.structureText.Some? && StartsWith(Strip(a.structureText.value), "{")
    ensures s.Some? ==> s == a.structureParsed
  {
    if a.structureText.Some? && a.structureText.value != [] && StartsWith(Strip(a.structureText.value), "{")
    then a.structureParsed
    else None
  }

  /** _process_one_figure: the error decision tree. */
  function ProcessOneFigure(fig: FigureInput, useVlm: bool, vlm: Vlm): (r: Schema.DiagramResult)
    ensures r.figure == InfoOf(fig)
    ensures !useVlm ==> r.reading == Schema.DiagramReading(None, None, None, None, Some(Disabled))
    ensures useVlm && fig.image.None? ==> r.reading == Schema.DiagramReading(None, None, None, None, Some(NoImage))
    ensures useVlm && fig.image.Some? && vlm.imported && !vlm.configured ==>
      r.reading == Schema.DiagramReading(None, None, None, None, Some(NotConfigured))
    ensures useVlm && fig.image.Some? && vlm.imported && vlm.configured && vlm.answer(fig.image.value).describe.None? ==>
      r.reading == Schema.DiagramReading(None, None, None, None, Some(DescribeFailed))
    ensures useVlm && fig.image.Some? && !vlm.imported ==> r.reading == Schema.DiagramReading(None, None, None, None, None)
    ensures r.reading.description.Some? ==>
      && useVlm && fig.image.Some? && vlm.imported && vlm.configured
      && r.reading.description == vlm.answer(fig.image.value).describe
      && r.reading.chartData == vlm.answer(fig.image.value).chartData
      && r.reading.error.None?
  {
    var info := InfoOf(fig);
    var none := Schema.DiagramReading(None, None, None, None, None);
    if useVlm && vlm.imported && fig.image.Some? then
      if !vlm.configured then Schema.DiagramResult(info, none.(error := Some(NotConfigured)))
      else
        var a := vlm.answer(fig.image.value);
        if a.describe.None? then Schema.DiagramResult(info, none.(error := Some(DescribeFailed)))
        else
          var structure := StructureOf(a);
          Schema.DiagramResult(info, Schema.DiagramReading(
            a.describe,
            if structure.Some? then Some(structure.value.json) else None,
            a.chartData,
            if structure.Some? then structure.value.kind else None,
            None))
    else if !useVlm then Schema.DiagramResult(info, none.(error := Some(Disabled)))
    else if fig.image.None? then Schema.DiagramResult(info, none.(error := Some(NoImage)))
    else Schema.DiagramResult(info, none)
  }

  /**
   * Exactly one of three outcomes: an error is set, a description is set,
   * or neither, which happens only when the VLM module could not be imported.
   */
  lemma ReadingOutcome(fig: FigureInput, useVlm: bool, vlm: Vlm)
    ensures var rd := ProcessOneFigure(fig, useVlm, vlm).reading;
      && !(rd.error.Some? && rd.description.Some?)
      && (rd.error.None? && rd.description.None? <==> useVlm && fig.image.Some? && !vlm.imported)
      && (rd.structure.Some? || rd.kind.Some? || rd.chartData.Some? ==> rd.description.Some?)
  {
  }

  /** A reading the consolidated report keeps as high quality needed the VLM on, configured, and a non-empty description. */
  lemma HighQualityNeedsVlm(fig: FigureInput, useVlm: bool, vlm: Vlm)
    requires Consolidated.HighQualityReading(ProcessOneFigure(fig, useVlm, vlm).reading)
    ensures useVlm && vlm.imported && vlm.configured && fig.image.Some?
    ensures vlm.answer(fig.image.value).describe.Some? && vlm.answer(fig.image.value).describe.value != []
  {
  }

  /** The dictionaries extract_figures returns, as the pipeline reads them. */
  function InputOf(f: FigureExtract.Figure): FigureInput {
    FigureInput(f.pageNumber, f.bbox, f.area, Some(f.image))
  }

  /** The per-figure readings, in figure order. */
  function ProcessAll(figures: seq<FigureInput>, useVlm: bool, vlm: Vlm): (ds: seq<Schema.DiagramResult>)
    ensures |ds| == |figures|
    ensures forall i :: 0 <= i < |figures| ==> ds[i] == ProcessOneFigure(figures[i], useVlm, vlm)
  {
    seq(|figures|, i requires 0 <= i < |figures| => ProcessOneFigure(figures[i], useVlm, vlm))
  }

  /** The number of workers: the explicit count or the default, at most one per figure. */
  function WorkerCount(vlmWorkers: Option<int>, env: Config.Env, figureCount: int): (n: int)
    ensures n <= figureCount
    ensures vlmWorkers.None? && figureCount >= 1 ==> 1 <= n
  {
    Config.Min(if vlmWorkers.Some? then vlmWorkers.value else DefaultVlmWorkers(env), figureCount)
  }

  /** min_figure_area or 1000: a missing or zero area falls back to the default. */
  function MinAreaOf(minFigureArea: Option<real>): (a: real)
    ensures minFigureArea.None? || minFigureArea.value == 0.0 ==> a == FigureExtract.MinFigureAreaDefault
    ensures minFigureArea.Some? && minFigureArea.value != 0.0 ==> a == minFigureArea.value
  {
    if minFigureArea.Some? && minFigureArea.value != 0.0 then minFigureArea.value else FigureExtract.MinFigureAreaDefault
  }

  /**
   * run_diagram_pipeline: the path is validated first; then every figure
   * extract_figures returns is read, in order. The file name (Path.name),
   * the document id and the timestamp are parameters.
   */
  function RunDiagramPipeline(path: PathFacts, filename: string, docId: string, ingestedAt: string,
                              pages: seq<FigureExtract.FigurePage>, maxPages: Option<int>,
                              extraction: map<int, FigureExtract.Extraction>, minFigureArea: Option<real>,
                              useVlm: bool, vlm: Vlm): (r: Result<Schema.DocumentDiagramsResult, ExtractionError>)
    ensures r.Err? <==> ValidatePdfPath(path).Err?
    ensures r.Ok? ==> r.value.docId == docId && r.value.filename == filename && r.value.ingestedAt == ingestedAt
    ensures r.Ok? ==>
      var figures := FigureExtract.Figures(pages, maxPages, extraction, MinAreaOf(minFigureArea));
      && r.value.figuresTotal == |r.value.diagrams| == |figures|
      && (forall i :: 0 <= i < |figures| ==> r.value.diagrams[i] == ProcessOneFigure(InputOf(figures[i]), useVlm, vlm))
  {
    var validated := ValidatePdfPath(path);
    if validated.Err? then Err(validated.error)
    else
      var figures := FigureExtract.Figures(pages, maxPages, extraction, MinAreaOf(minFigureArea));
      if figures == [] then Ok(Schema.DocumentDiagramsResult(docId, filename, 0, [], ingestedAt))
      else
        var diagrams := ProcessAll(seq(|figures|, i requires 0 <= i < |figures| => InputOf(figures[i])), useVlm, vlm);
        Ok(Schema.DocumentDiagramsResult(docId, filename, |diagrams|, diagrams, ingestedAt))
  }

  /** Each diagram describes a figure on a scanned page, in page order, and with the VLM disabled every reading says so. */
  lemma PipelineFacts(path: PathFacts, filename: string, docId: string, ingestedAt: string,
                      pages: seq<FigureExtract.FigurePage>, maxPages: Option<int>,
                      extraction: map<int, FigureExtract.Extraction>, minFigureArea: Option<real>,
                      useVlm: bool, vlm: Vlm)
    requires ValidatePdfPath(path).Ok?
    ensures var ds := RunDiagramPipeline(path, filename, docId, ingestedAt, pages, maxPages, extraction,
                                         minFigureArea, useVlm, vlm).value.diagrams;
      && (forall i :: 0 <= i < |ds| ==> 1 <= ds[i].figure.pageNumber <= |pages|)
      && (forall i, j :: 0 <= i < j < |ds| ==> ds[i].figure.pageNumber <= ds[j].figure.pageNumber)
      && (!useVlm ==> forall i :: 0 <= i < |ds| ==> ds[i].reading.error == Some(Disabled))
  {
    var figures := FigureExtract.Figures(pages, maxPages, extraction, MinAreaOf(minFigureArea));
    FigureExtract.FiguresFacts(pages, maxPages, extraction, MinAreaOf(minFigureArea));
    assert forall i :: 0 <= i < |figures| ==> FigureExtract.Kept(figures[i], pages, extraction, MinAreaOf(minFigureArea));
  }
}
