/**
 * The extraction orchestrator: which pages need OCR, how the per-page
 * quality gate judges an OCR result, the retry loop that re-OCRs failing
 * pages, and the assembly of the final pages, statistics and summary.
 */
module Extract {
  import opened Wrappers
  import opened Text
  import opened Numbers
  import opened Schema
  import opened Utils
  import opened Ocr
  import opened Tika

  const MinTikaChars: int := 50
  const MinConfidenceForAvg: real := 92.0
  const QualityMinAvgConfidence: real := 93.0
  const QualityMaxLowConfRatio: real := 0.5
  const QualityMinPassSimilarity: real := 0.85
  const QualityMinTikaSimilarity: real := 0.85
  const QualityRetriesDefault: int := 2
  const DecisionAccuracyThreshold: real := 0.8
  const DiagramHeavyLowConfThreshold: real := 0.85
  const DiagramHeavyMaxPassSimilarity: real := 0.25

  function Max0(n: int): nat { if n < 0 then 0 else n }

  // ---------------------------------------------------------------- thresholds

  /**
   * A quality-target override dictionary. An absent threshold key is None;
   * an absent skip flag is false.
   */
  datatype Overrides = Overrides(
    minAvgConfidence: Option<real>,
    maxLowConfRatio: Option<real>,
    minPassSimilarity: Option<real>,
    minTikaSimilarity: Option<real>,
    decisionAccuracyThreshold: Option<real>,
    skipTikaGateWhenTikaSelected: bool)

  /** QUALITY_TARGET_OVERRIDES[90]. */
  const Target90: Overrides := Overrides(Some(90.0), Some(0.6), Some(0.90), Some(0.90), Some(0.9), true)

  /** QUALITY_TARGET_OVERRIDES.get(quality_target) if quality_target else None */
  function TargetOverrides(qualityTarget: Option<int>): (r: Option<Overrides>)
    ensures r.Some? <==> qualityTarget == Some(90)
    ensures r.Some? ==> r.value == Target90
  {
    match qualityTarget
    case None => None
    case Some(t) => if t == 0 then None else if t == 90 then Some(Target90) else None
  }

  /** The four gate thresholds of a page. */
  datatype Thresholds = Thresholds(minAvgConfidence: real, maxLowConfRatio: real, minPassSimilarity: real, minTikaSimilarity: real)

  /** dict.get(key, default) on an override that may be absent. */
  function GetOr(v: Option<real>, default: real): real { if v.Some? then v.value else default }

  /** The thresholds before any layout relaxation: the override values, or the module defaults. */
  function BaseThresholds(ov: Option<Overrides>): Thresholds {
    match ov
    case None => Thresholds(QualityMinAvgConfidence, QualityMaxLowConfRatio, QualityMinPassSimilarity, QualityMinTikaSimilarity)
    case Some(o) =>
      Thresholds(
        GetOr(o.minAvgConfidence, QualityMinAvgConfidence),
        GetOr(o.maxLowConfRatio, QualityMaxLowConfRatio),
        GetOr(o.minPassSimilarity, QualityMinPassSimilarity),
        GetOr(o.minTikaSimilarity, QualityMinTikaSimilarity))
  }

  function DecisionThreshold(ov: Option<Overrides>): real {
    match ov
    case None => DecisionAccuracyThreshold
    case Some(o) => GetOr(o.decisionAccuracyThreshold, DecisionAccuracyThreshold)
  }

  /** The keys a layout or diagram-heavy override dictionary may carry. */
  datatype Key = MaxLowConfRatioKey | MinPassSimilarityKey | MinTikaSimilarityKey | MinAvgConfidenceKey

  /** An override dictionary, in its insertion order. */
  type OverrideList = seq<(Key, real)>

  /** LAYOUT_QUALITY_OVERRIDES. */
  function LayoutOverrides(layout: Layout): OverrideList {
    match layout
    case TableLayout =>
      [(MaxLowConfRatioKey, 0.8), (MinPassSimilarityKey, 0.36), (MinTikaSimilarityKey, 0.0), (MinAvgConfidenceKey, 90.0)]
    case NoisyLayout =>
      [(MaxLowConfRatioKey, 0.85), (MinPassSimilarityKey, 0.35), (MinTikaSimilarityKey, 0.0), (MinAvgConfidenceKey, 90.0)]
    case TextLayout =>
      [(MinPassSimilarityKey, 0.88)]
  }

  /** DIAGRAM_HEAVY_OVERRIDES. */
  const DiagramHeavyOverrides: OverrideList := [(MaxLowConfRatioKey, 0.95), (MinPassSimilarityKey, 0.15)]

  /** The threshold a key names. */
  function Field(t: Thresholds, k: Key): real {
    match k
    case MaxLowConfRatioKey => t.maxLowConfRatio
    case MinPassSimilarityKey => t.minPassSimilarity
    case MinTikaSimilarityKey => t.minTikaSimilarity
    case MinAvgConfidenceKey => t.minAvgConfidence
  }

  /** a is at least as lenient as b for key k: higher for the maximum, lower for a minimum. */
  predicate Looser(k: Key, a: real, b: real) {
    if k == MaxLowConfRatioKey then a >= b else a <= b
  }

  /** One step of the merge loop: max for max_low_conf_ratio, min for the min_* keys. */
  function Relax(t: Thresholds, kv: (Key, real)): (r: Thresholds)
  {
    var (k, v) := kv;
    match k
    case MaxLowConfRatioKey => t.(maxLowConfRatio := if t.maxLowConfRatio >= v then t.maxLowConfRatio else v)
    case MinPassSimilarityKey => t.(minPassSimilarity := if t.minPassSimilarity <= v then t.minPassSimilarity else v)
    case MinTikaSimilarityKey => t.(minTikaSimilarity := if t.minTikaSimilarity <= v then t.minTikaSimilarity else v)
    case MinAvgConfidenceKey => t.(minAvgConfidence := if t.minAvgConfidence <= v then t.minAvgConfidence else v)
  }

  /** The thresholds after merging every override in order. */
  function Merged(t: Thresholds, kvs: OverrideList): Thresholds {
    if kvs == [] then t else Relax(Merged(t, kvs[..|kvs| - 1]), kvs[|kvs| - 1])
  }

  /** r is nowhere stricter than t. */
  predicate Relaxes(t: Thresholds, r: Thresholds) {
    forall k: Key :: Looser(k, Field(r, k), Field(t, k))
  }

  /** The merged value of a threshold is the most lenient of its base value and the overrides for its key. */
  predicate MostLenient(t: Thresholds, kvs: OverrideList, r: Thresholds, k: Key) {
    && Looser(k, Field(r, k), Field(t, k))
    && (forall i :: 0 <= i < |kvs| && kvs[i].0 == k ==> Looser(k, Field(r, k), kvs[i].1))
    && (Field(r, k) == Field(t, k) || exists i :: 0 <= i < |kvs| && kvs[i].0 == k && kvs[i].1 == Field(r, k))
  }

  lemma RelaxStep(t: Thresholds, kv: (Key, real), k: Key)
    ensures Looser(k, Field(Relax(t, kv), k), Field(t, k))
    ensures kv.0 == k ==> Looser(k, Field(Relax(t, kv), k), kv.1)
    ensures Field(Relax(t, kv), k) == Field(t, k) || (kv.0 == k && kv.1 == Field(Relax(t, kv), k))
  {
  }

  /** Merging overrides can only relax: every threshold ends up at the most lenient of base and overrides. */
  lemma {:induction false} MergedMostLenient(t: Thresholds, kvs: OverrideList, k: Key)
    ensures MostLenient(t, kvs, Merged(t, kvs), k)
  {
    if kvs != [] {
      var init := kvs[..|kvs| - 1];
      var m := Merged(t, init);
      MergedMostLenient(t, init, k);
      RelaxStep(m, kvs[|kvs| - 1], k);
      var r := Merged(t, kvs);
      forall i | 0 <= i < |kvs| && kvs[i].0 == k
        ensures Looser(k, Field(r, k), kvs[i].1)
      {
        if i < |kvs| - 1 {
          assert init[i] == kvs[i];
        }
      }
      if Field(r, k) != Field(t, k) {
        if Field(r, k) == Field(m, k) {
          var i :| 0 <= i < |init| && init[i].0 == k && init[i].1 == Field(m, k);
          assert kvs[i] == init[i];
        } else {
          assert kvs[|kvs| - 1].0 == k && kvs[|kvs| - 1].1 == Field(r, k);
        }
      }
    }
  }

  lemma MergedRelaxes(t: Thresholds, kvs: OverrideList)
    ensures Relaxes(t, Merged(t, kvs))
  {
    forall k: Key ensures Looser(k, Field(Merged(t, kvs), k), Field(t, k)) {
      MergedMostLenient(t, kvs, k);
    }
  }

  lemma RelaxesTransitive(a: Thresholds, b: Thresholds, c: Thresholds)
    requires Relaxes(a, b) && Relaxes(b, c)
    ensures Relaxes(a, c)
  {
    forall k: Key ensures Looser(k, Field(c, k), Field(a, k)) {
      assert Looser(k, Field(b, k), Field(a, k));
      assert Looser(k, Field(c, k), Field(b, k));
    }
  }

  /** The merge loop of _page_quality over an override dictionary. */
  method MergeOverrides(t: Thresholds, kvs: OverrideList) returns (r: Thresholds)
    ensures r == Merged(t, kvs)
    ensures Relaxes(t, r)
  {
    r := t;
    var i := 0;
    while i < |kvs|
      invariant 0 <= i <= |kvs|
      invariant r == Merged(t, kvs[..i])
    {
      assert kvs[..i + 1][..i] == kvs[..i];
      r := Relax(r, kvs[i]);
      i := i + 1;
    }
    assert kvs[..i] == kvs;
    MergedRelaxes(t, kvs);
  }

  /** layout or "text" */
  function LayoutForGates(layout: Option<Layout>): Layout {
    if layout.Some? then layout.value else TextLayout
  }

  /** Very many low-confidence tokens and very low agreement between passes on a table or noisy page. */
  predicate DiagramHeavy(layout: Layout, lowConfRatio: Option<real>, passSimilarity: Option<real>) {
    && (layout == NoisyLayout || layout == TableLayout)
    && lowConfRatio.Some? && passSimilarity.Some?
    && lowConfRatio.value > DiagramHeavyLowConfThreshold
    && passSimilarity.value < DiagramHeavyMaxPassSimilarity
  }

  /** The thresholds a page is judged by: base, then the layout merge, then the diagram-heavy merge. */
  function GateThresholds(ov: Option<Overrides>, layout: Option<Layout>, lowConfRatio: Option<real>, passSimilarity: Option<real>): Thresholds {
    var l := LayoutForGates(layout);
    var t := Merged(BaseThresholds(ov), LayoutOverrides(l));
    if DiagramHeavy(l, lowConfRatio, passSimilarity) then Merged(t, DiagramHeavyOverrides) else t
  }

  /** The layout and diagram-heavy merges only relax the base thresholds. */
  lemma GateThresholdsRelax(ov: Option<Overrides>, layout: Option<Layout>, lowConfRatio: Option<real>, passSimilarity: Option<real>)
    ensures Relaxes(BaseThresholds(ov), GateThresholds(ov, layout, lowConfRatio, passSimilarity))
  {
    var l := LayoutForGates(layout);
    var t := Merged(BaseThresholds(ov), LayoutOverrides(l));
    MergedRelaxes(BaseThresholds(ov), LayoutOverrides(l));
    if DiagramHeavy(l, lowConfRatio, passSimilarity) {
      MergedRelaxes(t, DiagramHeavyOverrides);
      RelaxesTransitive(BaseThresholds(ov), t, Merged(t, DiagramHeavyOverrides));
    }
  }

  /** A missing layout is judged as text; the diagram-heavy relaxation never applies to a text page. */
  lemma GateThresholdsText(ov: Option<Overrides>, lowConfRatio: Option<real>, passSimilarity: Option<real>)
    ensures GateThresholds(ov, None, lowConfRatio, passSimilarity)
         == GateThresholds(ov, Some(TextLayout), lowConfRatio, passSimilarity)
         == Merged(BaseThresholds(ov), LayoutOverrides(TextLayout))
  {
  }

  /** Table and noisy pages never fail the Tika-similarity gate: their minimum becomes 0. */
  lemma TableNoisyTikaMinimum(ov: Option<Overrides>, layout: Layout, lowConfRatio: Option<real>, passSimilarity: Option<real>)
    requires layout == TableLayout || layout == NoisyLayout
    ensures GateThresholds(ov, Some(layout), lowConfRatio, passSimilarity).minTikaSimilarity <= 0.0
  {
    var base := BaseThresholds(ov);
    var kvs := LayoutOverrides(layout);
    MergedMostLenient(base, kvs, MinTikaSimilarityKey);
    assert kvs[2] == (MinTikaSimilarityKey, 0.0);
    var t := Merged(base, kvs);
    if DiagramHeavy(layout, lowConfRatio, passSimilarity) {
      MergedMostLenient(t, DiagramHeavyOverrides, MinTikaSimilarityKey);
    }
  }

  // ---------------------------------------------------------------- page metrics

  /** The confidences at or above MIN_CONFIDENCE_FOR_AVG. */
  function HighConfidences(confs: seq<real>): seq<real> {
    AtLeast(confs, MinConfidenceForAvg)
  }

  /** Mean of the high-confidence tokens, None when there are none. */
  function AvgConfidence(confs: seq<real>): (r: Option<real>)
    ensures r.None? <==> forall i :: 0 <= i < |confs| ==> confs[i] < MinConfidenceForAvg
    ensures r.Some? ==> r.value >= MinConfidenceForAvg
  {
    var high := HighConfidences(confs);
    AtLeastEmpty(confs, MinConfidenceForAvg);
    if high == [] then None
    else
      MeanAtLeast(high, MinConfidenceForAvg);
      Some(Mean(high))
  }

  /** The share of tokens below MIN_CONFIDENCE_FOR_AVG, None without tokens. */
  function LowConfRatio(confs: seq<real>): (r: Option<real>)
    ensures r.None? <==> confs == []
    ensures r.Some? ==> 0.0 <= r.value <= 1.0
    ensures r.Some? ==> (r.value == 0.0 <==> forall i :: 0 <= i < |confs| ==> confs[i] >= MinConfidenceForAvg)
  {
    var high := HighConfidences(confs);
    if confs == [] then None
    else
      AtLeastAll(confs, MinConfidenceForAvg);
      FractionFacts(|confs| - |high|, |confs|);
      Some((|confs| - |high|) as real / |confs| as real)
  }

  lemma FractionFacts(a: nat, b: nat)
    requires 0 < b && a <= b
    ensures 0.0 <= a as real / b as real <= 1.0
    ensures a as real / b as real == 0.0 <==> a == 0
  {
    assert a as real / b as real <= b as real / b as real;
  }

  /** similarity_ratio(tika_text, ocr_text) if both texts are non-empty, else None. */
  function TikaSimilarity(tikaText: string, ocrText: string): (r: Option<real>)
    ensures r.Some? ==> tikaText != [] && ocrText != [] && !IsBlank(tikaText) && r.value <= 1.0
  {
    if tikaText != [] && ocrText != [] then SimilarityRatio(tikaText, ocrText) else None
  }

  /** The accuracy score: the Tika similarity, else the average confidence over 100, else None. */
  function AccuracyScore(tikaSimilarity: Option<real>, avgConfidence: Option<real>): Option<real> {
    if tikaSimilarity.Some? then tikaSimilarity
    else if avgConfidence.Some? then Some(avgConfidence.value / 100.0)
    else None
  }

  /** B takes OCR when the accuracy reaches the threshold; otherwise A keeps Tika's text, or OCR when Tika has none. */
  function Decide(accuracy: Option<real>, threshold: real, tikaText: string): (r: (Decision, Source))
    ensures r.0 == DecisionB <==> accuracy.Some? && accuracy.value >= threshold
    ensures r.1 == Tika <==> r.0 == DecisionA && !IsBlank(tikaText)
  {
    StripFacts(tikaText);
    if accuracy.Some? && accuracy.value >= threshold then (DecisionB, Ocr)
    else (DecisionA, if Strip(tikaText) != [] then Tika else Ocr)
  }

  /** The named checks a page fails, in check order. */
  function FailedGates(avgConfidence: Option<real>, lowConfRatio: Option<real>, passSimilarity: Option<real>,
                       tikaSimilarity: Option<real>, t: Thresholds, skipTikaGate: bool, selected: Source): seq<Gate>
  {
    (if avgConfidence.None? || avgConfidence.value < t.minAvgConfidence then [AvgConfidenceGate] else [])
    + (if lowConfRatio.None? || lowConfRatio.value > t.maxLowConfRatio then [LowConfRatioGate] else [])
    + (if passSimilarity.None? || passSimilarity.value < t.minPassSimilarity then [DualPassSimilarityGate] else [])
    + (if !(skipTikaGate && selected == Tika) && tikaSimilarity.Some? && t.minTikaSimilarity > 0.0
          && tikaSimilarity.value < t.minTikaSimilarity
       then [TikaSimilarityGate] else [])
  }

  /**
   * Gate semantics: a missing metric fails its gate; the Tika gate only
   * applies when the similarity exists, its minimum is positive and it is
   * not skipped for a page that selected Tika; each gate appears at most once.
   */
  lemma FailedGatesMeaning(avgConfidence: Option<real>, lowConfRatio: Option<real>, passSimilarity: Option<real>,
                           tikaSimilarity: Option<real>, t: Thresholds, skipTikaGate: bool, selected: Source)
    ensures var f := FailedGates(avgConfidence, lowConfRatio, passSimilarity, tikaSimilarity, t, skipTikaGate, selected);
      && (AvgConfidenceGate in f <==> avgConfidence.None? || avgConfidence.value < t.minAvgConfidence)
      && (LowConfRatioGate in f <==> lowConfRatio.None? || lowConfRatio.value > t.maxLowConfRatio)
      && (DualPassSimilarityGate in f <==> passSimilarity.None? || passSimilarity.value < t.minPassSimilarity)
      && (TikaSimilarityGate in f <==>
            !(skipTikaGate && selected == Tika) && tikaSimilarity.Some? && t.minTikaSimilarity > 0.0
            && tikaSimilarity.value < t.minTikaSimilarity)
  {
  }

  /** Relaxing the thresholds never adds a failed gate. */
  lemma FailedGatesMonotone(avgConfidence: Option<real>, lowConfRatio: Option<real>, passSimilarity: Option<real>,
                            tikaSimilarity: Option<real>, t: Thresholds, r: Thresholds, skipTikaGate: bool, selected: Source)
    requires Relaxes(t, r)
    ensures forall g :: (g in FailedGates(avgConfidence, lowConfRatio, passSimilarity, tikaSimilarity, r, skipTikaGate, selected)
      ==> g in FailedGates(avgConfidence, lowConfRatio, passSimilarity, tikaSimilarity, t, skipTikaGate, selected))
  {
    assert Looser(MinAvgConfidenceKey, Field(r, MinAvgConfidenceKey), Field(t, MinAvgConfidenceKey));
    assert Looser(MaxLowConfRatioKey, Field(r, MaxLowConfRatioKey), Field(t, MaxLowConfRatioKey));
    assert Looser(MinPassSimilarityKey, Field(r, MinPassSimilarityKey), Field(t, MinPassSimilarityKey));
    assert Looser(MinTikaSimilarityKey, Field(r, MinTikaSimilarityKey), Field(t, MinTikaSimilarityKey));
    FailedGatesMeaning(avgConfidence, lowConfRatio, passSimilarity, tikaSimilarity, t, skipTikaGate, selected);
    FailedGatesMeaning(avgConfidence, lowConfRatio, passSimilarity, tikaSimilarity, r, skipTikaGate, selected);
  }

  // ---------------------------------------------------------------- _page_quality

  /** The token list of an optional OCR page. */
  function TokensOf(ocrPage: Option<OcrPage>): seq<Token> {
    if ocrPage.Some? then ocrPage.value.tokens else []
  }

  /** What _page_quality returns (metrics kept exact, without round(..., 4)). */
  function QualityGateOf(pageNumber: int, tikaText: string, ocrPage: Option<OcrPage>, retryAttempts: int,
                         bestStrategy: Option<Strategy>, ov: Option<Overrides>): QualityGate
  {
    var confs := Confidences(TokensOf(ocrPage));
    var avg := AvgConfidence(confs);
    var low := LowConfRatio(confs);
    var pass := if ocrPage.Some? then ocrPage.value.passSimilarity else None;
    var ocrText := if ocrPage.Some? then ocrPage.value.text else "";
    var layout := if ocrPage.Some? then ocrPage.value.layout else None;
    var tikaSim := TikaSimilarity(tikaText, ocrText);
    var accuracy := AccuracyScore(tikaSim, avg);
    var (decision, selected) := Decide(accuracy, DecisionThreshold(ov), tikaText);
    var t := GateThresholds(ov, layout, low, pass);
    var skip := ov.Some? && ov.value.skipTikaGateWhenTikaSelected;
    var failed := FailedGates(avg, low, pass, tikaSim, t, skip, selected);
    Schema.QualityGate(pageNumber, if failed == [] then Approved else NeedsReview, layout, avg, low, pass, tikaSim,
      failed, retryAttempts, bestStrategy, accuracy, Some(decision), Some(selected))
  }

  /**
   * The gate of a page: approved exactly when no check failed; the
   * identifying fields are copied; the decision is B exactly when the
   * accuracy reaches the decision threshold.
   */
  lemma QualityGateFacts(pageNumber: int, tikaText: string, ocrPage: Option<OcrPage>, retryAttempts: int,
                         bestStrategy: Option<Strategy>, ov: Option<Overrides>)
    ensures var g := QualityGateOf(pageNumber, tikaText, ocrPage, retryAttempts, bestStrategy, ov);
      && (g.status == Approved <==> g.failedGates == [])
      && g.pageNumber == pageNumber && g.retryAttempts == retryAttempts && g.bestStrategy == bestStrategy
      && (g.decision == Some(DecisionB) <==> g.accuracyScore.Some? && g.accuracyScore.value >= DecisionThreshold(ov))
      && (g.decision == Some(DecisionB) ==> g.selectedSource == Some(Ocr))
  {
  }

  /**
   * The accuracy of a page: the Tika similarity when there is one,
   * otherwise the mean OCR confidence scaled to [0, 1]; without an OCR
   * page the three OCR checks fail first.
   */
  lemma QualityGateAccuracy(pageNumber: int, tikaText: string, ocrPage: Option<OcrPage>, retryAttempts: int,
                            bestStrategy: Option<Strategy>, ov: Option<Overrides>)
    ensures var g := QualityGateOf(pageNumber, tikaText, ocrPage, retryAttempts, bestStrategy, ov);
      && (g.accuracyScore.Some? <==> g.tikaSimilarity.Some? || g.avgConfidence.Some?)
      && (g.tikaSimilarity.Some? ==> g.accuracyScore == g.tikaSimilarity)
      && (g.tikaSimilarity.None? && g.avgConfidence.Some? ==> g.accuracyScore == Some(g.avgConfidence.value / 100.0))
      && (ocrPage.None? ==> g.failedGates[..3] == [AvgConfidenceGate, LowConfRatioGate, DualPassSimilarityGate])
  {
  }

  /** Every failed gate of a page would also fail under the base thresholds. */
  lemma QualityGateWithinBase(pageNumber: int, tikaText: string, ocrPage: Option<OcrPage>, retryAttempts: int,
                              bestStrategy: Option<Strategy>, ov: Option<Overrides>)
    ensures var g := QualityGateOf(pageNumber, tikaText, ocrPage, retryAttempts, bestStrategy, ov);
      var skip := ov.Some? && ov.value.skipTikaGateWhenTikaSelected;
      forall x :: x in g.failedGates ==>
        x in FailedGates(g.avgConfidence, g.lowConfRatio, g.dualPassSimilarity, g.tikaSimilarity,
                         BaseThresholds(ov), skip, g.selectedSource.value)
  {
    var g := QualityGateOf(pageNumber, tikaText, ocrPage, retryAttempts, bestStrategy, ov);
    var skip := ov.Some? && ov.value.skipTikaGateWhenTikaSelected;
    GateThresholdsRelax(ov, g.layout, g.lowConfRatio, g.dualPassSimilarity);
    FailedGatesMonotone(g.avgConfidence, g.lowConfRatio, g.dualPassSimilarity, g.tikaSimilarity,
      BaseThresholds(ov), GateThresholds(ov, g.layout, g.lowConfRatio, g.dualPassSimilarity), skip, g.selectedSource.value);
  }

  /** _page_quality: metrics, decision, thresholds merged in two loops, gates. */
  method PageQuality(pageNumber: int, tikaText: string, ocrPage: Option<OcrPage>, retryAttempts: int,
                     bestStrategy: Option<Strategy>, ov: Option<Overrides>) returns (gate: QualityGate)
    ensures gate == QualityGateOf(pageNumber, tikaText, ocrPage, retryAttempts, bestStrategy, ov)
  {
    var confs := Confidences(TokensOf(ocrPage));
    var avg := AvgConfidence(confs);
    var low := LowConfRatio(confs);
    var pass := if ocrPage.Some? then ocrPage.value.passSimilarity else None;
    var ocrText := if ocrPage.Some? then ocrPage.value.text else "";
    var layout := if ocrPage.Some? then ocrPage.value.layout else None;
    var tikaSim := TikaSimilarity(tikaText, ocrText);
    var accuracy := AccuracyScore(tikaSim, avg);
    var (decision, selected) := Decide(accuracy, DecisionThreshold(ov), tikaText);
    var layoutForGates := LayoutForGates(layout);
    var t := MergeOverrides(BaseThresholds(ov), LayoutOverrides(layoutForGates));
    if DiagramHeavy(layoutForGates, low, pass) {
      t := MergeOverrides(t, DiagramHeavyOverrides);
    }
    var skip := ov.Some? && ov.value.skipTikaGateWhenTikaSelected;
    var failed := FailedGates(avg, low, pass, tikaSim, t, skip, selected);
    gate := Schema.QualityGate(pageNumber, if failed == [] then Approved else NeedsReview, layout, avg, low, pass, tikaSim,
      failed, retryAttempts, bestStrategy, accuracy, Some(decision), Some(selected));
  }

  // ---------------------------------------------------------------- _quality_summary

  /** _quality_summary: approved exactly when every page is, with the base thresholds reported. */
  function QualitySummaryOf(pages: seq<QualityGate>, strict: bool, ov: Option<Overrides>): (r: QualityResult)
    ensures r.status == Approved <==> forall i :: 0 <= i < |pages| ==> pages[i].status == Approved
    ensures r.pages == pages && r.strict == strict
    ensures r.minAvgConfidence == BaseThresholds(ov).minAvgConfidence
    ensures r.maxLowConfRatio == BaseThresholds(ov).maxLowConfRatio
    ensures r.minDualPassSimilarity == BaseThresholds(ov).minPassSimilarity
    ensures r.minTikaSimilarity == BaseThresholds(ov).minTikaSimilarity
  {
    var t := BaseThresholds(ov);
    var status := if forall i :: 0 <= i < |pages| ==> pages[i].status == Approved then Approved else NeedsReview;
    QualityResult(status, strict, t.minAvgConfidence, t.maxLowConfRatio, t.minPassSimilarity, t.minTikaSimilarity, pages)
  }
  // ---------------------------------------------------------------- _build_pages

  /** dict.get(page, "") on the Tika page map. */
  function TextAt(m: map<int, string>, page: int): string {
    if page in m then m[page] else ""
  }

  /** dict.get(page) on a map of OCR pages. */
  function OcrAt(m: map<int, OcrPage>, page: int): Option<OcrPage> {
    if page in m then Some(m[page]) else None
  }

  /** selected_sources.get(page) if selected_sources else None */
  function SelectedAt(m: map<int, Option<Source>>, page: int): Option<Source> {
    if page in m then m[page] else None
  }

  /** Whether an OCR page shows the Tika text instead of its own. */
  predicate UseTikaText(tikaText: string, preferTikaText: bool, selected: Option<Source>) {
    selected == Some(Tika) || (preferTikaText && Strip(tikaText) != [])
  }

  /** The page _build_pages emits for one page number. */
  function PageFor(page: int, tikaMap: map<int, string>, ocrPages: map<int, OcrPage>, ocrUsed: set<int>,
                   preferTikaText: bool, selected: map<int, Option<Source>>): Page
  {
    var tikaText := TextAt(tikaMap, page);
    if page in ocrUsed then
      if UseTikaText(tikaText, preferTikaText, SelectedAt(selected, page)) then Page(page, Tika, tikaText, [])
      else
        var ocr := OcrAt(ocrPages, page);
        Page(page, Ocr, if ocr.Some? then ocr.value.text else "", TokensOf(ocr))
    else Page(page, Tika, tikaText, [])
  }

  /**
   * A page outside ocr_used shows Tika's text; a page inside it shows Tika's
   * text exactly when Tika was selected for it, or Tika's text is preferred
   * and not blank; otherwise it shows the OCR text and tokens. A Tika page
   * never carries tokens.
   */
  lemma PageForFacts(page: int, tikaMap: map<int, string>, ocrPages: map<int, OcrPage>, ocrUsed: set<int>,
                     preferTikaText: bool, selected: map<int, Option<Source>>)
    ensures var p := PageFor(page, tikaMap, ocrPages, ocrUsed, preferTikaText, selected);
      && p.pageNumber == page
      && (p.source == Tika ==> p.tokens == [] && p.text == TextAt(tikaMap, page))
      && (page !in ocrUsed ==> p.source == Tika)
      && (page in ocrUsed ==>
            (p.source == Tika <==> SelectedAt(selected, page) == Some(Tika)
                                   || (preferTikaText && !IsBlank(TextAt(tikaMap, page)))))
      && (p.source == Ocr ==> p.tokens == TokensOf(OcrAt(ocrPages, page)))
  {
    StripFacts(TextAt(tikaMap, page));
  }

  /** One iteration of _build_pages: the page for one page number. */
  method BuildPage(pageNumber: int, tikaMap: map<int, string>, ocrPages: map<int, OcrPage>, ocrUsed: set<int>,
                   preferTikaText: bool, selected: map<int, Option<Source>>) returns (page: Page)
    ensures page == PageFor(pageNumber, tikaMap, ocrPages, ocrUsed, preferTikaText, selected)
  {
    var tikaText := TextAt(tikaMap, pageNumber);
    var sel := SelectedAt(selected, pageNumber);
    if pageNumber in ocrUsed {
      var ocr := OcrAt(ocrPages, pageNumber);
      var useTika := UseTikaText(tikaText, preferTikaText, sel);
      page := Page(pageNumber, if useTika then Tika else Ocr,
        if useTika then tikaText else if ocr.Some? then ocr.value.text else "",
        if useTika then [] else TokensOf(ocr));
    } else {
      page := Page(pageNumber, Tika, tikaText, []);
    }
  }

  /** _build_pages: one page per number 1..page_count, in order. */
  method BuildPages(pageCount: int, tikaMap: map<int, string>, ocrPages: map<int, OcrPage>, ocrUsed: set<int>,
                    preferTikaText: bool, selected: map<int, Option<Source>>) returns (pages: seq<Page>)
    ensures |pages| == Max0(pageCount)
    ensures forall i :: 0 <= i < |pages| ==> pages[i] == PageFor(i + 1, tikaMap, ocrPages, ocrUsed, preferTikaText, selected)
  {
    pages := [];
    var pageNumber := 1;
    while pageNumber <= pageCount
      invariant 1 <= pageNumber <= Max0(pageCount) + 1
      invariant |pages| == pageNumber - 1
      invariant forall i :: 0 <= i < |pages| ==> pages[i] == PageFor(i + 1, tikaMap, ocrPages, ocrUsed, preferTikaText, selected)
    {
      var page := BuildPage(pageNumber, tikaMap, ocrPages, ocrUsed, preferTikaText, selected);
      pages := pages + [page];
      pageNumber := pageNumber + 1;
    }
  }

  /** The texts of the pages with non-empty text, in page order. */
  function PageTexts(pages: seq<Page>): seq<string> {
    NonEmptyOnly(seq(|pages|, i requires 0 <= i < |pages| => pages[i].text))
  }

  /** "\n".join(page.text for page in pages if page.text).strip() */
  function FullText(pages: seq<Page>): string {
    Strip(Join(PageTexts(pages), "\n"))
  }

  // ---------------------------------------------------------------- _calculate_stats

  /** Every token confidence of every page, page by page. */
  function AllConfidences(pages: seq<Page>): seq<real> {
    if pages == [] then [] else AllConfidences(pages[..|pages| - 1]) + Confidences(pages[|pages| - 1].tokens)
  }

  /** The number of tokens over all pages. */
  function TokenCount(pages: seq<Page>): nat {
    if pages == [] then 0 else TokenCount(pages[..|pages| - 1]) + |pages[|pages| - 1].tokens|
  }

  /** What _calculate_stats returns (without rounding). */
  function StatsOf(pages: seq<Page>): Stats {
    Stats(TokenCount(pages), AvgConfidence(AllConfidences(pages)))
  }

  /**
   * avg_confidence is None exactly when no token reaches 92; otherwise it
   * is the mean of those tokens, so at least 92.
   */
  lemma StatsFacts(pages: seq<Page>)
    ensures StatsOf(pages).totalTokens == |AllConfidences(pages)|
    ensures StatsOf(pages).avgConfidence.None? <==>
      forall i :: 0 <= i < |AllConfidences(pages)| ==> AllConfidences(pages)[i] < MinConfidenceForAvg
    ensures StatsOf(pages).avgConfidence.Some? ==>
      StatsOf(pages).avgConfidence.value >= MinConfidenceForAvg
      && StatsOf(pages).avgConfidence.value == Mean(HighConfidences(AllConfidences(pages)))
  {
    TokenCountConfidences(pages);
  }

  lemma {:induction false} TokenCountConfidences(pages: seq<Page>)
    ensures TokenCount(pages) == |AllConfidences(pages)|
  {
    if pages != [] {
      TokenCountConfidences(pages[..|pages| - 1]);
    }
  }

  /** The inner loop of _calculate_stats: append the page's confidences of at least 92. */
  method AddHighConfidences(confidences: seq<real>, tokens: seq<Token>) returns (r: seq<real>)
    ensures r == confidences + HighConfidences(Confidences(tokens))
  {
    r := confidences;
    var j := 0;
    while j < |tokens|
      invariant 0 <= j <= |tokens|
      invariant r == confidences + HighConfidences(Confidences(tokens)[..j])
    {
      assert Confidences(tokens)[..j + 1] == Confidences(tokens)[..j] + [tokens[j].confidence];
      AtLeastConcat(Confidences(tokens)[..j], [tokens[j].confidence], MinConfidenceForAvg);
      if tokens[j].confidence >= MinConfidenceForAvg {
        r := r + [tokens[j].confidence];
      }
      j := j + 1;
    }
    assert Confidences(tokens)[..j] == Confidences(tokens);
  }

  /** _calculate_stats: total tokens, and the mean of the confidences of at least 92. */
  method CalculateStats(pages: seq<Page>) returns (stats: Stats)
    ensures stats == StatsOf(pages)
  {
    var total := 0;
    var confidences: seq<real> := [];
    var i := 0;
    while i < |pages|
      invariant 0 <= i <= |pages|
      invariant total == TokenCount(pages[..i])
      invariant confidences == HighConfidences(AllConfidences(pages[..i]))
    {
      assert pages[..i + 1][..i] == pages[..i];
      AtLeastConcat(AllConfidences(pages[..i]), Confidences(pages[i].tokens), MinConfidenceForAvg);
      confidences := AddHighConfidences(confidences, pages[i].tokens);
      total := total + |pages[i].tokens|;
      i := i + 1;
    }
    assert pages[..i] == pages;
    stats := Stats(total, if confidences == [] then None else Some(Mean(confidences)));
  }
  // ---------------------------------------------------------------- which pages need OCR

  /** {page["page_number"]: page.get("text", "")}: a later entry for the same number wins. */
  function TikaPageMap(pages: seq<TikaPage>): map<int, string> {
    if pages == [] then map[]
    else TikaPageMap(pages[..|pages| - 1])[pages[|pages| - 1].pageNumber := pages[|pages| - 1].text]
  }

  /** For pages numbered 1..n the map gives page k's text for k in 1..n and nothing else. */
  lemma {:induction false} TikaPageMapNumbered(pages: seq<TikaPage>)
    requires forall i :: 0 <= i < |pages| ==> pages[i].pageNumber == i + 1
    ensures forall k :: k in TikaPageMap(pages) <==> 1 <= k <= |pages|
    ensures forall k :: 1 <= k <= |pages| ==> TikaPageMap(pages)[k] == pages[k - 1].text
  {
    if pages != [] {
      TikaPageMapNumbered(pages[..|pages| - 1]);
    }
  }

  /** A page number of a document with `pageCount` pages. */
  predicate IsPage(p: int, pageCount: int) { 1 <= p <= pageCount }

  /** A page whose stripped Tika text is shorter than MIN_TIKA_CHARS. */
  predicate ShortText(text: string) { |Strip(text)| < MinTikaChars }

  /** The set ocr_required: every page when Tika failed or OCR is forced, else the pages with short text. */
  function OcrRequired(pageCount: int, tikaFailed: bool, forceOcr: bool, tikaMap: map<int, string>): set<int> {
    if tikaFailed || forceOcr then set p | 1 <= p <= pageCount && IsPage(p, pageCount)
    else set p | 1 <= p <= pageCount && IsPage(p, pageCount) && ShortText(TextAt(tikaMap, p))
  }

  /** No page needs OCR exactly when there is no page, or Tika worked, OCR is not forced and no page's text is short. */
  lemma OcrRequiredEmpty(pageCount: int, tikaFailed: bool, forceOcr: bool, tikaMap: map<int, string>)
    ensures OcrRequired(pageCount, tikaFailed, forceOcr, tikaMap) == {} <==>
      pageCount < 1 || (!tikaFailed && !forceOcr && forall p :: 1 <= p <= pageCount ==> !ShortText(TextAt(tikaMap, p)))
  {
    if pageCount >= 1 && (tikaFailed || forceOcr) {
      assert 1 in OcrRequired(pageCount, tikaFailed, forceOcr, tikaMap);
    }
    if pageCount >= 1 && !tikaFailed && !forceOcr && !forall p :: 1 <= p <= pageCount ==> !ShortText(TextAt(tikaMap, p)) {
      var p :| 1 <= p <= pageCount && ShortText(TextAt(tikaMap, p));
      assert p in OcrRequired(pageCount, tikaFailed, forceOcr, tikaMap);
    }
  }

  /** The loop that collects the pages with short Tika text, then the overrides for failure and force_ocr. */
  method ComputeOcrRequired(pageCount: int, tikaFailed: bool, forceOcr: bool, tikaMap: map<int, string>) returns (required: set<int>)
    ensures required == OcrRequired(pageCount, tikaFailed, forceOcr, tikaMap)
  {
    required := {};
    if !tikaFailed {
      var pageNumber := 1;
      while pageNumber <= pageCount
        invariant 1 <= pageNumber <= Max0(pageCount) + 1
        invariant required == set p | 1 <= p < pageNumber && ShortText(TextAt(tikaMap, p))
      {
        if ShortText(TextAt(tikaMap, pageNumber)) {
          required := required + {pageNumber};
        }
        pageNumber := pageNumber + 1;
      }
    } else {
      required := set p | 1 <= p <= pageCount && IsPage(p, pageCount);
    }
    if forceOcr {
      required := set p | 1 <= p <= pageCount && IsPage(p, pageCount);
    }
  }

  /** {page["page_number"]: page for page in ocr_page_list}: the OCR pages are numbered from 1. */
  function OcrPageMap(pages: seq<OcrPage>): (m: map<int, OcrPage>)
    ensures forall k :: k in m <==> 1 <= k <= |pages|
    ensures forall k :: 1 <= k <= |pages| ==> m[k] == pages[k - 1]
  {
    map k | 1 <= k <= |pages| && IsPage(k, |pages|) :: pages[k - 1]
  }

  // ---------------------------------------------------------------- the retry loop

  /** retry_meta.get(page, {}).get("attempts", 0) */
  function AttemptsAt(m: map<int, nat>, page: int): nat {
    if page in m then m[page] else 0
  }

  /** ocr_pages.get(page, {}).get("strategy") */
  function StrategyAt(m: map<int, OcrPage>, page: int): Option<Strategy> {
    if page in m then Some(m[page].strategy) else None
  }

  /** The gate of one page given the current OCR pages and retry counts. */
  function GateAt(page: int, tikaMap: map<int, string>, ocrPages: map<int, OcrPage>, attempts: map<int, nat>,
                  ov: Option<Overrides>): QualityGate
  {
    QualityGateOf(page, TextAt(tikaMap, page), OcrAt(ocrPages, page), AttemptsAt(attempts, page), StrategyAt(ocrPages, page), ov)
  }

  /** The page numbers whose gate is not approved and that are in `required`, in page order. */
  function FailingPages(gates: seq<QualityGate>, required: set<int>): seq<int> {
    if gates == [] then []
    else
      var n := |gates|;
      FailingPages(gates[..n - 1], required) + (if gates[n - 1].status != Approved && n in required then [n] else [])
  }

  /** Strictly increasing, hence without repetition. */
  predicate Increasing(s: seq<int>) {
    forall i, j :: 0 <= i < j < |s| ==> s[i] < s[j]
  }

  /** The failing pages are listed in increasing order, and they are exactly the required pages whose gate failed. */
  lemma {:induction false} FailingPagesFacts(gates: seq<QualityGate>, required: set<int>)
    ensures Increasing(FailingPages(gates, required))
    ensures forall p :: p in FailingPages(gates, required) <==> 1 <= p <= |gates| && gates[p - 1].status != Approved && p in required
  {
    if gates != [] {
      var n := |gates|;
      var init := FailingPages(gates[..n - 1], required);
      FailingPagesFacts(gates[..n - 1], required);
      forall i | 0 <= i < n - 1
        ensures gates[..n - 1][i] == gates[i]
      {
      }
      assert forall p :: p in init ==> 1 <= p < n;
      var last := if gates[n - 1].status != Approved && n in required then [n] else [];
      var r := FailingPages(gates, required);
      assert r == init + last;
      forall i, j | 0 <= i < j < |r|
        ensures r[i] < r[j]
      {
        if j >= |init| {
          assert r[j] == last[j - |init|] == n;
          assert r[i] == init[i] && init[i] in init;
        } else {
          assert r[i] == init[i] && r[j] == init[j];
        }
      }
    }
  }

  /** [f(1), ..., f(n)] */
  function Tabulate<T>(n: int, f: int -> T): (r: seq<T>)
    ensures |r| == Max0(n)
  {
    seq(Max0(n), i => f(i + 1))
  }

  /** Tabulating one more page appends that page's value. */
  lemma TabulateSnoc<T>(n: nat, f: int -> T)
    ensures Tabulate(n + 1, f) == Tabulate(n, f) + [f(n + 1)]
  {
    assert Tabulate(n + 1, f)[..n] == Tabulate(n, f);
  }

  /** The gates of pages 1..n, in page order. */
  function GatesOf(n: int, tikaMap: map<int, string>, ocrPages: map<int, OcrPage>, attempts: map<int, nat>,
                   ov: Option<Overrides>): seq<QualityGate>
  {
    Tabulate(n, p => GateAt(p, tikaMap, ocrPages, attempts, ov))
  }

  /** The body of the gate loop: the gate of one more page, and whether it is a failing required page. */
  method AssessNext(pageNumber: int, gates: seq<QualityGate>, failures: seq<int>, tikaMap: map<int, string>,
                    ocrPages: map<int, OcrPage>, attempts: map<int, nat>, required: set<int>, ov: Option<Overrides>)
    returns (gates': seq<QualityGate>, failures': seq<int>)
    requires 1 <= pageNumber
    requires gates == GatesOf(pageNumber - 1, tikaMap, ocrPages, attempts, ov)
    requires failures == FailingPages(gates, required)
    ensures gates' == GatesOf(pageNumber, tikaMap, ocrPages, attempts, ov)
    ensures failures' == FailingPages(gates', required)
  {
    var gate := PageQuality(pageNumber, TextAt(tikaMap, pageNumber), OcrAt(ocrPages, pageNumber),
      AttemptsAt(attempts, pageNumber), StrategyAt(ocrPages, pageNumber), ov);
    TabulateSnoc(pageNumber - 1, p => GateAt(p, tikaMap, ocrPages, attempts, ov));
    gates' := gates + [gate];
    assert gates'[..|gates|] == gates;
    failures' := failures;
    if gate.status != Approved && pageNumber in required {
      failures' := failures + [pageNumber];
    }
  }

  /** The gate loop of one retry round: every page's gate, and the required pages that failed. */
  method AssessPages(pageCount: int, tikaMap: map<int, string>, ocrPages: map<int, OcrPage>, attempts: map<int, nat>,
                     required: set<int>, ov: Option<Overrides>) returns (gates: seq<QualityGate>, failures: seq<int>)
    ensures gates == GatesOf(pageCount, tikaMap, ocrPages, attempts, ov)
    ensures failures == FailingPages(gates, required)
  {
    gates := [];
    failures := [];
    var pageNumber := 1;
    while pageNumber <= pageCount
      invariant 1 <= pageNumber <= Max0(pageCount) + 1
      invariant gates == GatesOf(pageNumber - 1, tikaMap, ocrPages, attempts, ov)
      invariant failures == FailingPages(gates, required)
    {
      gates, failures := AssessNext(pageNumber, gates, failures, tikaMap, ocrPages, attempts, required, ov);
      pageNumber := pageNumber + 1;
    }
  }

  /** sum(high) / len(high) if high else 0.0: the mean confidence of the tokens of at least 92. */
  function HighConfidenceScore(tokens: seq<Token>): (r: real)
    ensures r == 0.0 || r >= MinConfidenceForAvg
    ensures r == 0.0 <==> forall i :: 0 <= i < |tokens| ==> tokens[i].confidence < MinConfidenceForAvg
  {
    var avg := AvgConfidence(Confidences(tokens));
    assert forall i :: 0 <= i < |tokens| ==> Confidences(tokens)[i] == tokens[i].confidence;
    if avg.Some? then avg.value else 0.0
  }

  /**
   * What the retry loop works with: the re-OCR of a page at an attempt
   * number (rerun_page_ocr) and the score by which a re-OCR is compared
   * with the stored result (_high_confidence_score).
   */
  datatype Retrier = Retrier(rerun: (int, nat) -> Result<OcrPage, Failure>, score: seq<Token> -> real)

  /** The retrier of extract_pdf: rerun_page_ocr over the document's renderer, compared by the high-confidence score. */
  function RetrierOf(rerender: (int, int) -> Result<seq<PageImage>, Failure>): Retrier {
    Retrier((p: int, attempt: nat) => RerunSpec(p, attempt, rerender), HighConfidenceScore)
  }

  /** The score of the stored OCR result of a page; a page without one scores as an empty token list. */
  function CurrentScore(score: seq<Token> -> real, ocrPages: map<int, OcrPage>, page: int): real {
    score(TokensOf(OcrAt(ocrPages, page)))
  }

  /** The stored result is replaced by the retry result only when the retry scores at least as well. */
  function Replaced(score: seq<Token> -> real, ocrPages: map<int, OcrPage>, page: int, retry: OcrPage): map<int, OcrPage> {
    if score(retry.tokens) >= CurrentScore(score, ocrPages, page) then ocrPages[page := retry] else ocrPages
  }

  /**
   * A replacement touches only its page and never lowers its score: the
   * score afterwards is the better of the two. The page holds a stored
   * result afterwards when it had one or the retry scores at least what no
   * tokens score.
   */
  lemma ReplacedFacts(score: seq<Token> -> real, ocrPages: map<int, OcrPage>, page: int, retry: OcrPage)
    ensures forall q :: q != page ==> OcrAt(Replaced(score, ocrPages, page, retry), q) == OcrAt(ocrPages, q)
    ensures page in ocrPages || score(retry.tokens) >= score([]) ==> page in Replaced(score, ocrPages, page, retry)
    ensures CurrentScore(score, Replaced(score, ocrPages, page, retry), page) >= CurrentScore(score, ocrPages, page)
    ensures CurrentScore(score, Replaced(score, ocrPages, page, retry), page) >= score(retry.tokens)
  {
  }

  /**
   * The outcome of retrying one page given its re-OCR: an OCR error is
   * passed on; otherwise the better of the stored result and the re-OCR is
   * kept and the page's attempt count goes up by one.
   */
  function RetryStep(score: seq<Token> -> real, page: int, retry: Result<OcrPage, Failure>,
                     ocrPages: map<int, OcrPage>, attempts: map<int, nat>)
    : Result<(map<int, OcrPage>, map<int, nat>), Failure>
  {
    match retry
    case Err(e) => Err(e)
    case Ok(v) => Ok((Replaced(score, ocrPages, page, v), attempts[page := AttemptsAt(attempts, page) + 1]))
  }

  /** One retried page: re-run OCR on it, keep the better result, count the attempt. */
  method RetryPage(page: int, attempt: nat, retrier: Retrier,
                   ocrPages: map<int, OcrPage>, attempts: map<int, nat>)
    returns (r: Result<(map<int, OcrPage>, map<int, nat>), Failure>)
    ensures r == RetryStep(retrier.score, page, retrier.rerun(page, attempt), ocrPages, attempts)
  {
    var retry := retrier.rerun(page, attempt);
    if retry.Err? {
      return Err(retry.error);
    }
    var currentScore := retrier.score(TokensOf(OcrAt(ocrPages, page)));
    var retryScore := retrier.score(retry.value.tokens);
    var pages := ocrPages;
    if retryScore >= currentScore {
      pages := pages[page := retry.value];
    }
    r := Ok((pages, attempts[page := AttemptsAt(attempts, page) + 1]));
  }

  /** A retry round counts one more attempt for each failing page and for no other page. */
  ghost predicate AttemptsCounted(failures: seq<int>, attempts: map<int, nat>, attempts': map<int, nat>) {
    && (forall p :: AttemptsAt(attempts', p) == AttemptsAt(attempts, p) + (if p in failures then 1 else 0))
    && (forall p :: p in attempts' ==> p in attempts || p in failures)
  }

  /**
   * A retry round of attempt number `attempt` leaves each failing page with
   * the better of its stored result and its re-OCR, and every other page
   * with its OCR result.
   */
  ghost predicate OcrRetried(failures: seq<int>, retrier: Retrier, attempt: nat,
                             ocrPages: map<int, OcrPage>, ocrPages': map<int, OcrPage>)
  {
    && (forall p :: p !in failures ==> OcrAt(ocrPages', p) == OcrAt(ocrPages, p))
    && (forall p :: p in failures ==>
          retrier.rerun(p, attempt).Ok? && OcrAt(ocrPages', p) == OcrAt(Replaced(retrier.score, ocrPages, p, retrier.rerun(p, attempt).value), p))
  }

  /** What a retry round leaves behind, relative to the state before it. */
  ghost predicate RoundEffect(failures: seq<int>, retrier: Retrier, attempt: nat,
                              ocrPages: map<int, OcrPage>, attempts: map<int, nat>,
                              ocrPages': map<int, OcrPage>, attempts': map<int, nat>)
  {
    AttemptsCounted(failures, attempts, attempts') && OcrRetried(failures, retrier, attempt, ocrPages, ocrPages')
  }

  /** Counting the last page of a round, not counted before in it, extends the count of the earlier pages. */
  lemma AttemptsCountedStep(failures: seq<int>, attempts: map<int, nat>, counts: map<int, nat>)
    requires failures != []
    requires AttemptsCounted(failures[..|failures| - 1], attempts, counts)
    requires failures[|failures| - 1] !in failures[..|failures| - 1]
    ensures var page := failures[|failures| - 1];
      AttemptsCounted(failures, attempts, counts[page := AttemptsAt(counts, page) + 1])
  {
    var prefix, page := failures[..|failures| - 1], failures[|failures| - 1];
    var counts' := counts[page := AttemptsAt(counts, page) + 1];
    assert failures == prefix + [page];
    forall q
      ensures AttemptsAt(counts', q) == AttemptsAt(attempts, q) + (if q in failures then 1 else 0)
    {
      assert q in failures <==> q in prefix || q == page;
    }
    forall q | q in counts'
      ensures q in attempts || q in failures
    {
      assert q in counts || q == page;
    }
  }

  /** Re-OCRing the last page of a round, not retried before in it, extends the effect of the earlier pages by that page. */
  lemma OcrRetriedStep(failures: seq<int>, retrier: Retrier, attempt: nat,
                       ocrPages: map<int, OcrPage>, pages: map<int, OcrPage>)
    requires failures != []
    requires OcrRetried(failures[..|failures| - 1], retrier, attempt, ocrPages, pages)
    requires failures[|failures| - 1] !in failures[..|failures| - 1]
    requires retrier.rerun(failures[|failures| - 1], attempt).Ok?
    ensures var page := failures[|failures| - 1];
      OcrRetried(failures, retrier, attempt, ocrPages, Replaced(retrier.score, pages, page, retrier.rerun(page, attempt).value))
  {
    var prefix, page := failures[..|failures| - 1], failures[|failures| - 1];
    var retry := retrier.rerun(page, attempt).value;
    var pages' := Replaced(retrier.score, pages, page, retry);
    assert failures == prefix + [page];
    ReplacedFacts(retrier.score, pages, page, retry);
    forall q | q !in failures
      ensures OcrAt(pages', q) == OcrAt(ocrPages, q)
    {
      assert q != page && q !in prefix;
    }
    assert CurrentScore(retrier.score, pages, page) == CurrentScore(retrier.score, ocrPages, page);
    forall q | q in failures
      ensures retrier.rerun(q, attempt).Ok? && OcrAt(pages', q) == OcrAt(Replaced(retrier.score, ocrPages, q, retrier.rerun(q, attempt).value), q)
    {
      if q != page {
        assert q in prefix;
      }
    }
  }

  /**
   * A retry round as a function: the failing pages are re-OCRed in order,
   * each keeping the better of its stored result and its re-OCR and
   * counting one more attempt; the first error ends the round.
   */
  function RoundSpec(failures: seq<int>, retrier: Retrier, attempt: nat,
                     ocrPages: map<int, OcrPage>, attempts: map<int, nat>): Result<(map<int, OcrPage>, map<int, nat>), Failure>
  {
    if failures == [] then Ok((ocrPages, attempts))
    else
      var page := failures[|failures| - 1];
      match RoundSpec(failures[..|failures| - 1], retrier, attempt, ocrPages, attempts)
      case Err(e) => Err(e)
      case Ok(st) => RetryStep(retrier.score, page, retrier.rerun(page, attempt), st.0, st.1)
  }

  /** An error part-way through a round is the round's outcome. */
  lemma {:induction false} RoundSpecErrStays(failures: seq<int>, k: nat, retrier: Retrier, attempt: nat,
                                             ocrPages: map<int, OcrPage>, attempts: map<int, nat>)
    requires k <= |failures|
    requires RoundSpec(failures[..k], retrier, attempt, ocrPages, attempts).Err?
    ensures RoundSpec(failures, retrier, attempt, ocrPages, attempts) == RoundSpec(failures[..k], retrier, attempt, ocrPages, attempts)
    decreases |failures| - k
  {
    if k < |failures| {
      assert failures[..k + 1][..k] == failures[..k];
      RoundSpecErrStays(failures, k + 1, retrier, attempt, ocrPages, attempts);
    } else {
      assert failures[..k] == failures;
    }
  }

  /** A round over distinct pages that succeeds counts one more attempt for exactly its pages. */
  lemma {:induction false} RoundSpecCounts(failures: seq<int>, retrier: Retrier, attempt: nat,
                                           ocrPages: map<int, OcrPage>, attempts: map<int, nat>)
    requires Increasing(failures)
    ensures var r := RoundSpec(failures, retrier, attempt, ocrPages, attempts);
      r.Ok? ==> AttemptsCounted(failures, attempts, r.value.1)
  {
    if failures != [] {
      var n := |failures|;
      var init := failures[..n - 1];
      assert Increasing(init) by {
        assert forall i :: 0 <= i < n - 1 ==> init[i] == failures[i];
      }
      RoundSpecCounts(init, retrier, attempt, ocrPages, attempts);
      var prev := RoundSpec(init, retrier, attempt, ocrPages, attempts);
      if prev.Ok? && retrier.rerun(failures[n - 1], attempt).Ok? {
        assert failures[n - 1] !in init by {
          forall i | 0 <= i < n - 1 ensures init[i] != failures[n - 1] {
            assert init[i] == failures[i];
          }
        }
        AttemptsCountedStep(failures, attempts, prev.value.1);
      }
    }
  }

  /** A round over distinct pages that succeeds leaves each of its pages with the better of the two OCR results, and no other page changed. */
  lemma {:induction false} RoundSpecRetried(failures: seq<int>, retrier: Retrier, attempt: nat,
                                            ocrPages: map<int, OcrPage>, attempts: map<int, nat>)
    requires Increasing(failures)
    ensures var r := RoundSpec(failures, retrier, attempt, ocrPages, attempts);
      r.Ok? ==> OcrRetried(failures, retrier, attempt, ocrPages, r.value.0)
  {
    if failures != [] {
      var n := |failures|;
      var init := failures[..n - 1];
      assert Increasing(init) by {
        assert forall i :: 0 <= i < n - 1 ==> init[i] == failures[i];
      }
      RoundSpecRetried(init, retrier, attempt, ocrPages, attempts);
      var prev := RoundSpec(init, retrier, attempt, ocrPages, attempts);
      if prev.Ok? && retrier.rerun(failures[n - 1], attempt).Ok? {
        assert failures[n - 1] !in init by {
          forall i | 0 <= i < n - 1 ensures init[i] != failures[n - 1] {
            assert init[i] == failures[i];
          }
        }
        OcrRetriedStep(failures, retrier, attempt, ocrPages, prev.value.0);
      }
    }
  }

  /** One more page of a round: the round so far, extended by the re-OCR of the next page. */
  lemma RoundSpecNext(failures: seq<int>, k: nat, retrier: Retrier, attempt: nat,
                      ocrPages: map<int, OcrPage>, attempts: map<int, nat>, pages: map<int, OcrPage>, counts: map<int, nat>)
    requires k < |failures|
    requires RoundSpec(failures[..k], retrier, attempt, ocrPages, attempts) == Ok((pages, counts))
    ensures RoundSpec(failures[..k + 1], retrier, attempt, ocrPages, attempts)
         == RetryStep(retrier.score, failures[k], retrier.rerun(failures[k], attempt), pages, counts)
  {
    assert failures[..k + 1][..k] == failures[..k];
  }

  /** The body of the inner loop: retry the k-th failing page, extending the round so far by one page. */
  method RetryNext(failures: seq<int>, k: nat, attempt: nat, retrier: Retrier,
                   ocrPages: map<int, OcrPage>, attempts: map<int, nat>, pages: map<int, OcrPage>, counts: map<int, nat>)
    returns (r: Result<(map<int, OcrPage>, map<int, nat>), Failure>)
    requires k < |failures|
    requires RoundSpec(failures[..k], retrier, attempt, ocrPages, attempts) == Ok((pages, counts))
    ensures r == RoundSpec(failures[..k + 1], retrier, attempt, ocrPages, attempts)
  {
    r := RetryPage(failures[k], attempt, retrier, pages, counts);
    RoundSpecNext(failures, k, retrier, attempt, ocrPages, attempts, pages, counts);
  }

  /** The inner loop of a round: retry every failing page once, in order; an OCR error ends extraction. */
  method RetryRound(failures: seq<int>, attempt: nat, retrier: Retrier,
                    ocrPages: map<int, OcrPage>, attempts: map<int, nat>)
    returns (r: Result<(map<int, OcrPage>, map<int, nat>), Failure>)
    requires Increasing(failures)
    ensures r == RoundSpec(failures, retrier, attempt, ocrPages, attempts)
    ensures r.Ok? ==> RoundEffect(failures, retrier, attempt, ocrPages, attempts, r.value.0, r.value.1)
  {
    var pages, counts := ocrPages, attempts;
    var k := 0;
    assert failures[..0] == [];
    while k < |failures|
      invariant 0 <= k <= |failures|
      invariant RoundSpec(failures[..k], retrier, attempt, ocrPages, attempts) == Ok((pages, counts))
    {
      var step := RetryNext(failures, k, attempt, retrier, ocrPages, attempts, pages, counts);
      if step.Err? {
        RoundSpecErrStays(failures, k + 1, retrier, attempt, ocrPages, attempts);
        return Err(step.error);
      }
      pages, counts := step.value.0, step.value.1;
      k := k + 1;
    }
    assert failures[..k] == failures;
    r := Ok((pages, counts));
    RoundSpecCounts(failures, retrier, attempt, ocrPages, attempts);
    RoundSpecRetried(failures, retrier, attempt, ocrPages, attempts);
  }

  /** The failing pages of a state of the retry loop: the required pages whose quality gate is not approved. */
  function FailuresIn(pageCount: int, tikaMap: map<int, string>, required: set<int>, ov: Option<Overrides>)
    : (map<int, OcrPage>, map<int, nat>) -> seq<int>
  {
    (ocrPages: map<int, OcrPage>, attempts: map<int, nat>) => FailingPages(GatesOf(pageCount, tikaMap, ocrPages, attempts, ov), required)
  }

  /** Failing pages are listed in increasing order. */
  ghost predicate FailuresIncreasing(failuresOf: (map<int, OcrPage>, map<int, nat>) -> seq<int>) {
    forall ocrPages, attempts :: Increasing(failuresOf(ocrPages, attempts))
  }

  /** Failing pages are required pages of the document. */
  ghost predicate FailuresRequired(failuresOf: (map<int, OcrPage>, map<int, nat>) -> seq<int>, required: set<int>, pageCount: int) {
    forall ocrPages, attempts, p :: p in failuresOf(ocrPages, attempts) ==> p in required && 1 <= p <= pageCount
  }

  /** The failing pages of the quality gates are increasing and required. */
  lemma FailuresInWithin(pageCount: int, tikaMap: map<int, string>, required: set<int>, ov: Option<Overrides>)
    ensures FailuresIncreasing(FailuresIn(pageCount, tikaMap, required, ov))
    ensures FailuresRequired(FailuresIn(pageCount, tikaMap, required, ov), required, pageCount)
  {
    forall ocrPages, attempts
      ensures Increasing(FailuresIn(pageCount, tikaMap, required, ov)(ocrPages, attempts))
      ensures forall p :: p in FailuresIn(pageCount, tikaMap, required, ov)(ocrPages, attempts) ==> p in required && 1 <= p <= pageCount
    {
      FailingPagesFacts(GatesOf(pageCount, tikaMap, ocrPages, attempts, ov), required);
    }
  }

  /**
   * The retry loop as a function, from round `attempt` on: stop when the
   * rounds run out or no page fails; otherwise retry the failing pages and
   * go on with the next round. An OCR error ends it.
   */
  function RetrySpec(failuresOf: (map<int, OcrPage>, map<int, nat>) -> seq<int>, qualityRetries: int,
                     retrier: Retrier,
                     attempt: nat, ocrPages: map<int, OcrPage>, attempts: map<int, nat>)
    : Result<(map<int, OcrPage>, map<int, nat>), Failure>
    decreases qualityRetries - attempt
  {
    if attempt >= qualityRetries then Ok((ocrPages, attempts))
    else
      var failures := failuresOf(ocrPages, attempts);
      if failures == [] then Ok((ocrPages, attempts))
      else
        match RoundSpec(failures, retrier, attempt, ocrPages, attempts)
        case Err(e) => Err(e)
        case Ok(st) => RetrySpec(failuresOf, qualityRetries, retrier, attempt + 1, st.0, st.1)
  }

  /** From round `attempt` on, the retry loop adds at most one attempt per remaining round to a page. */
  lemma {:induction false} RetrySpecAttempts(failuresOf: (map<int, OcrPage>, map<int, nat>) -> seq<int>,
      qualityRetries: int, retrier: Retrier,
      attempt: nat, ocrPages: map<int, OcrPage>, attempts: map<int, nat>)
    requires FailuresIncreasing(failuresOf)
    requires attempt <= Max0(qualityRetries)
    ensures var r := RetrySpec(failuresOf, qualityRetries, retrier, attempt, ocrPages, attempts);
      r.Ok? ==> forall p :: AttemptsAt(r.value.1, p) <= AttemptsAt(attempts, p) + (Max0(qualityRetries) - attempt)
    decreases qualityRetries - attempt
  {
    if attempt < qualityRetries {
      var failures := failuresOf(ocrPages, attempts);
      if failures != [] {
        RoundSpecCounts(failures, retrier, attempt, ocrPages, attempts);
        var round := RoundSpec(failures, retrier, attempt, ocrPages, attempts);
        if round.Ok? {
          RetrySpecAttempts(failuresOf, qualityRetries, retrier, attempt + 1, round.value.0, round.value.1);
        }
      }
    }
  }

  /** The retry loop counts attempts only for required pages of the document. */
  lemma {:induction false} RetrySpecCounted(failuresOf: (map<int, OcrPage>, map<int, nat>) -> seq<int>, required: set<int>, pageCount: int,
      qualityRetries: int, retrier: Retrier,
      attempt: nat, ocrPages: map<int, OcrPage>, attempts: map<int, nat>)
    requires FailuresIncreasing(failuresOf) && FailuresRequired(failuresOf, required, pageCount)
    ensures var r := RetrySpec(failuresOf, qualityRetries, retrier, attempt, ocrPages, attempts);
      r.Ok? ==> forall p :: p in r.value.1 ==> p in attempts || (p in required && 1 <= p <= pageCount)
    decreases qualityRetries - attempt
  {
    if attempt < qualityRetries {
      var failures := failuresOf(ocrPages, attempts);
      if failures != [] {
        RoundSpecCounts(failures, retrier, attempt, ocrPages, attempts);
        forall p | p in failures
          ensures p in required && 1 <= p <= pageCount
        {
          assert p in failuresOf(ocrPages, attempts);
        }
        var round := RoundSpec(failures, retrier, attempt, ocrPages, attempts);
        if round.Ok? {
          RetrySpecCounted(failuresOf, required, pageCount, qualityRetries, retrier, attempt + 1, round.value.0, round.value.1);
        }
      }
    }
  }

  /** The retry loop never changes the OCR of a page that does not need OCR. */
  lemma {:induction false} RetrySpecKeepsOthers(failuresOf: (map<int, OcrPage>, map<int, nat>) -> seq<int>, required: set<int>, pageCount: int,
      qualityRetries: int, retrier: Retrier,
      attempt: nat, ocrPages: map<int, OcrPage>, attempts: map<int, nat>)
    requires FailuresIncreasing(failuresOf) && FailuresRequired(failuresOf, required, pageCount)
    ensures var r := RetrySpec(failuresOf, qualityRetries, retrier, attempt, ocrPages, attempts);
      r.Ok? ==> forall p :: p !in required ==> OcrAt(r.value.0, p) == OcrAt(ocrPages, p)
    decreases qualityRetries - attempt
  {
    if attempt < qualityRetries {
      var failures := failuresOf(ocrPages, attempts);
      if failures != [] {
        RoundSpecRetried(failures, retrier, attempt, ocrPages, attempts);
        var round := RoundSpec(failures, retrier, attempt, ocrPages, attempts);
        if round.Ok? {
          RetrySpecKeepsOthers(failuresOf, required, pageCount, qualityRetries, retrier, attempt + 1, round.value.0, round.value.1);
        }
      }
    }
  }

  /**
   * The body of the retry loop: assess the pages and, when some required
   * page fails its gate, run a retry round over the failing pages.
   */
  method RetryAttempt(pageCount: int, tikaMap: map<int, string>, required: set<int>, ov: Option<Overrides>,
                      retrier: Retrier, attempt: nat,
                      pages: map<int, OcrPage>, counts: map<int, nat>)
    returns (failures: seq<int>, r: Result<(map<int, OcrPage>, map<int, nat>), Failure>)
    ensures failures == FailuresIn(pageCount, tikaMap, required, ov)(pages, counts)
    ensures failures == [] ==> r == Ok((pages, counts))
    ensures failures != [] ==> r == RoundSpec(failures, retrier, attempt, pages, counts)
  {
    var gates;
    gates, failures := AssessPages(pageCount, tikaMap, pages, counts, required, ov);
    if failures == [] {
      return failures, Ok((pages, counts));
    }
    FailingPagesFacts(gates, required);
    r := RetryRound(failures, attempt, retrier, pages, counts);
  }

  /**
   * The retry loop of extract_pdf: at most quality_retries rounds; a round
   * re-OCRs the required pages whose gate failed, and the loop stops early
   * once none fails.
   */
  method RetryLoop(pageCount: int, tikaMap: map<int, string>, required: set<int>, ov: Option<Overrides>,
                   qualityRetries: int, retrier: Retrier,
                   ocrPages0: map<int, OcrPage>)
    returns (r: Result<(map<int, OcrPage>, map<int, nat>), Failure>, ghost rounds: nat)
    ensures r == RetrySpec(FailuresIn(pageCount, tikaMap, required, ov), qualityRetries, retrier, 0, ocrPages0, map[])
    ensures rounds <= Max0(qualityRetries)
    ensures r.Ok? && rounds < qualityRetries ==> FailuresIn(pageCount, tikaMap, required, ov)(r.value.0, r.value.1) == []
  {
    var pages: map<int, OcrPage> := ocrPages0;
    var counts: map<int, nat> := map[];
    rounds := 0;
    var attempt := 0;
    ghost var failuresOf := FailuresIn(pageCount, tikaMap, required, ov);
    while attempt < qualityRetries
      invariant 0 <= attempt <= Max0(qualityRetries) && rounds == attempt
      invariant RetrySpec(failuresOf, qualityRetries, retrier, 0, ocrPages0, map[])
             == RetrySpec(failuresOf, qualityRetries, retrier, attempt, pages, counts)
    {
      var failures, step := RetryAttempt(pageCount, tikaMap, required, ov, retrier, attempt, pages, counts);
      if failures == [] {
        return step, rounds;
      }
      if step.Err? {
        return step, rounds;
      }
      pages, counts := step.value.0, step.value.1;
      attempt := attempt + 1;
      rounds := rounds + 1;
    }
    r := Ok((pages, counts));
  }

  // ---------------------------------------------------------------- extract_pdf

  /** Build the selected-source map {page_number: selected_source} from the gates; a later gate wins. */
  function SelectedSources(gates: seq<QualityGate>): map<int, Option<Source>> {
    if gates == [] then map[]
    else
      var last := gates[|gates| - 1];
      SelectedSources(gates[..|gates| - 1])[last.pageNumber := last.selectedSource]
  }

  /** For gates numbered 1..n, page p's selected source is the one its gate chose; other pages have none. */
  lemma {:induction false} SelectedSourcesNumbered(gates: seq<QualityGate>)
    requires forall i :: 0 <= i < |gates| ==> gates[i].pageNumber == i + 1
    ensures forall p :: 1 <= p <= |gates| ==> SelectedAt(SelectedSources(gates), p) == gates[p - 1].selectedSource
    ensures forall p :: !(1 <= p <= |gates|) ==> SelectedAt(SelectedSources(gates), p) == None
  {
    if gates != [] {
      var n := |gates|;
      var init := gates[..n - 1];
      SelectedSourcesNumbered(init);
      forall p
        ensures SelectedAt(SelectedSources(gates), p) == if 1 <= p <= n then gates[p - 1].selectedSource else None
      {
        var m := SelectedSources(init);
        assert SelectedSources(gates) == m[n := gates[n - 1].selectedSource];
        if 1 <= p < n {
          assert init[p - 1] == gates[p - 1];
          assert SelectedAt(m, p) == init[p - 1].selectedSource;
        } else if p != n {
          assert SelectedAt(m, p) == None;
        }
      }
    }
  }

  /** Path(path).name: the part of the path after its last '/'. */
  function Basename(path: string): (name: string)
    ensures '/' !in name
    ensures |name| <= |path| && path[|path| - |name|..] == name
    ensures |name| == |path| || path[|path| - |name| - 1] == '/'
  {
    if path == [] || path[|path| - 1] == '/' then []
    else
      var init := Basename(path[..|path| - 1]);
      assert path[..|path| - 1][|path| - 1 - |init|..] == path[|path| - 1 - |init|..|path| - 1];
      init + [path[|path| - 1]]
  }

  /** The arguments of extract_pdf. */
  datatype Request = Request(dpi: int, maxPages: Option<int>, forceOcr: bool, strictQuality: bool,
                             qualityRetries: int, qualityTarget: Option<int>, extractDiagrams: bool)

  /**
   * What the world answers extract_pdf: the file-system facts of the path,
   * the programs on PATH, pdfinfo's fields, Tika's parse of the file, the
   * page images convert_from_path renders at the requested dpi, the
   * one-page renderer the retries use, the diagram pipeline's outcome, and
   * the uuid4 and clock values of the result.
   */
  datatype Environment = Environment(
    path: PathFacts,
    onPath: set<string>,
    pdfInfo: Result<map<string, string>, string>,
    tikaParse: Result<Option<string>, Failure>,
    render: Result<seq<PageImage>, Failure>,
    rerender: (int, int) -> Result<seq<PageImage>, Failure>,
    diagrams: Result<DocumentDiagramsResult, Failure>,
    docId: string,
    ingestedAt: string)

  /** The programs OCR needs. */
  const OcrBinaries: seq<string> := ["tesseract", "pdftoppm"]

  /**
   * The checks before any extraction, in order: the path, pdftoppm on
   * PATH, the page count, the page limit. The result is the validated path
   * and the page count.
   */
  function Preflight(path: PathFacts, onPath: set<string>, pdfInfo: Result<map<string, string>, string>, maxPages: Option<int>)
    : (r: Result<(string, int), ExtractionError>)
    ensures r.Ok? <==> ValidatePdfPath(path).Ok? && EnsureBinaries(["pdftoppm"], onPath).None?
                       && GetPdfPageCount(pdfInfo).Ok? && GuardMaxPages(GetPdfPageCount(pdfInfo).value, maxPages).None?
    ensures r.Ok? ==> r.value == (path.path, GetPdfPageCount(pdfInfo).value)
    ensures r.Ok? && maxPages.Some? ==> r.value.1 <= maxPages.value
    ensures ValidatePdfPath(path).Err? ==> r == Err(ValidatePdfPath(path).error)
    ensures ValidatePdfPath(path).Ok? && EnsureBinaries(["pdftoppm"], onPath).Some? ==> r == Err(EnsureBinaries(["pdftoppm"], onPath).value)
  {
    var validated := ValidatePdfPath(path);
    if validated.Err? then Err(validated.error)
    else
      var missing := EnsureBinaries(["pdftoppm"], onPath);
      if missing.Some? then Err(missing.value)
      else
        var count := GetPdfPageCount(pdfInfo);
        if count.Err? then Err(count.error)
        else
          var guard := GuardMaxPages(count.value, maxPages);
          if guard.Some? then Err(guard.value) else Ok((validated.value, count.value))
  }

  /** The Tika page map of a Tika outcome; empty when Tika failed. */
  function TikaMapOf(tika: Result<(string, seq<TikaPage>), Failure>): map<int, string> {
    if tika.Ok? then TikaPageMap(tika.value.1) else map[]
  }

  /** The OCR page map of the rendered images: page k holds the OCR result of image k. */
  ghost predicate OcrPagesFrom(ocrPages: map<int, OcrPage>, images: seq<PageImage>) {
    ocrPages == OcrPageMap(PagesSpec(images))
  }

  /**
   * The OCR step of extract_pdf: nothing when no page needs OCR; otherwise
   * tesseract and pdftoppm must be on PATH and every rendered page is OCRed.
   */
  method OcrStage(required: set<int>, images: Result<seq<PageImage>, Failure>, onPath: set<string>)
    returns (r: Result<map<int, OcrPage>, Failure>)
    ensures required == {} ==> r == Ok(map[])
    ensures required != {} && EnsureBinaries(OcrBinaries, onPath).Some? ==> r == Err(Raised(EnsureBinaries(OcrBinaries, onPath).value))
    ensures required != {} && EnsureBinaries(OcrBinaries, onPath).None? && images.Err? ==>
      r == Err(Raised(ExtractionError(PdfProcessing, "OCR rendering failed: " + FailureMessage(images.error))))
    ensures r.Err? ==> required != {} && (EnsureBinaries(OcrBinaries, onPath).Some? || images.Err?)
    ensures r.Ok? && required != {} ==> EnsureBinaries(OcrBinaries, onPath).None? && images.Ok? && OcrPagesFrom(r.value, images.value)
  {
    if required == {} {
      return Ok(map[]);
    }
    var missing := EnsureBinaries(OcrBinaries, onPath);
    if missing.Some? {
      return Err(Raised(missing.value));
    }
    var ocr := ExtractWithOcr(images);
    if ocr.Err? {
      return Err(ocr.error);
    }
    r := Ok(OcrPageMap(ocr.value.1));
  }

  /** The state after the first pass: the pages that need OCR and their OCR results. */
  datatype FirstPass = FirstPass(required: set<int>, ocrPages: map<int, OcrPage>)

  /**
   * The first pass of extract_pdf after the preflight, given Tika's outcome,
   * as a function: with OCR forced, tesseract and pdftoppm must be on PATH
   * and the rendering must succeed; the pages that need OCR are then
   * computed and OCRed; Tika and OCR must not both be unavailable, and OCR
   * must return a page.
   */
  function FirstPassSpec(req: Request, tika: Result<(string, seq<TikaPage>), Failure>, env: Environment, pageCount: int,
                         ocr: seq<PageImage> -> seq<OcrPage>)
    : (r: Result<FirstPass, Failure>)
    ensures var required := OcrRequired(pageCount, tika.Err?, req.forceOcr, TikaMapOf(tika));
      var binaries := EnsureBinaries(OcrBinaries, env.onPath);
      && (r.Ok? <==> (req.forceOcr || required != {} ==> binaries.None? && env.render.Ok?)
                     && (required == {} ==> tika.Ok?)
                     && (required != {} ==> ocr(env.render.value) != []))
      && (req.forceOcr && binaries.Some? ==> r == Err(Raised(binaries.value)))
      && (req.forceOcr && binaries.None? && env.render.Err? ==> r == Err(env.render.error))
      && (!req.forceOcr && required != {} && binaries.None? && env.render.Err? ==>
            r == Err(Raised(ExtractionError(PdfProcessing, "OCR rendering failed: " + FailureMessage(env.render.error)))))
      && (r.Ok? ==> r.value.required == required)
      && (r.Ok? && required == {} ==> r.value.ocrPages == map[])
      && (r.Ok? && required != {} ==> r.value.ocrPages == OcrPageMap(ocr(env.render.value)) && 1 in r.value.ocrPages)
  {
    var required := OcrRequired(pageCount, tika.Err?, req.forceOcr, TikaMapOf(tika));
    var binaries := EnsureBinaries(OcrBinaries, env.onPath);
    if (req.forceOcr || required != {}) && binaries.Some? then Err(Raised(binaries.value))
    else if req.forceOcr && env.render.Err? then Err(env.render.error)
    else if required != {} && env.render.Err? then
      Err(Raised(ExtractionError(PdfProcessing, "OCR rendering failed: " + FailureMessage(env.render.error))))
    else if required == {} && tika.Err? then Err(Raised(ExtractionError(PdfProcessing, "Failed to extract PDF with Tika and OCR.")))
    else if required != {} && ocr(env.render.value) == [] then Err(Raised(ExtractionError(PdfProcessing, "OCR did not return any pages.")))
    else Ok(FirstPass(required, if required == {} then map[] else OcrPageMap(ocr(env.render.value))))
  }

  /** The first pass of extract_pdf after the preflight, given Tika's outcome. */
  method FirstPassOf(req: Request, tika: Result<(string, seq<TikaPage>), Failure>, env: Environment, pageCount: int)
    returns (r: Result<FirstPass, Failure>)
    ensures r == FirstPassSpec(req, tika, env, pageCount, PagesSpec)
  {
    var images := env.render;
    if req.forceOcr {
      var missing := EnsureBinaries(OcrBinaries, env.onPath);
      if missing.Some? {
        return Err(Raised(missing.value));
      }
      if env.render.Err? {
        return Err(env.render.error);
      }
      images := Ok(env.render.value);
    }
    var required := ComputeOcrRequired(pageCount, tika.Err?, req.forceOcr, TikaMapOf(tika));
    var ocr := OcrStage(required, images, env.onPath);
    if ocr.Err? {
      return Err(ocr.error);
    }
    if required == {} && tika.Err? {
      return Err(Raised(ExtractionError(PdfProcessing, "Failed to extract PDF with Tika and OCR.")));
    }
    if required != {} && ocr.value == map[] {
      assert 1 !in ocr.value;
      assert PagesSpec(env.render.value) == [];
      return Err(Raised(ExtractionError(PdfProcessing, "OCR did not return any pages.")));
    }
    r := Ok(FirstPass(required, ocr.value));
  }

  /** ExtractionMetadata: the method and engine name the sources used; dpi is reported only when OCR ran. */
  function MetadataOf(dpi: int, pageCount: int, tikaFailed: bool, ocrUsed: bool): (m: ExtractionMetadata)
    ensures m.pagesTotal == pageCount
    ensures m.extractionMethod == "tika" <==> !ocrUsed
    ensures m.extractionMethod == "ocr" <==> ocrUsed && tikaFailed
    ensures m.dpi.Some? <==> ocrUsed
    ensures m.dpi.Some? ==> m.dpi.value == dpi
  {
    var name := if !ocrUsed then "tika" else if tikaFailed then "ocr" else "hybrid";
    var engine := if !ocrUsed then "tika" else if tikaFailed then "tesseract" else "tika+tesseract";
    ExtractionMetadata(name, pageCount, if name == "ocr" || name == "hybrid" then Some(dpi) else None, engine)
  }
  /** The retry stage as a function: the retry loop when OCR ran, and otherwise the first pass unchanged with no attempts. */
  function RetryStageSpec(pageCount: int, tikaMap: map<int, string>, fp: FirstPass, ov: Option<Overrides>, qualityRetries: int,
                          retrier: Retrier): Result<(map<int, OcrPage>, map<int, nat>), Failure>
  {
    if fp.required == {} then Ok((fp.ocrPages, map[]))
    else RetrySpec(FailuresIn(pageCount, tikaMap, fp.required, ov), qualityRetries, retrier, 0, fp.ocrPages, map[])
  }

  /**
   * The retry stage keeps every count within the number of rounds, counts
   * only pages that need OCR, and leaves the OCR of every other page as the
   * first pass found it.
   */
  lemma RetryStageFacts(pageCount: int, tikaMap: map<int, string>, fp: FirstPass, ov: Option<Overrides>, qualityRetries: int,
                        retrier: Retrier)
    ensures var r := RetryStageSpec(pageCount, tikaMap, fp, ov, qualityRetries, retrier);
      r.Ok? ==>
        && (forall p :: AttemptsAt(r.value.1, p) <= Max0(qualityRetries))
        && (forall p :: p in r.value.1 ==> p in fp.required && 1 <= p <= pageCount)
        && (forall p :: p !in fp.required ==> OcrAt(r.value.0, p) == OcrAt(fp.ocrPages, p))
  {
    if fp.required != {} {
      var failuresOf := FailuresIn(pageCount, tikaMap, fp.required, ov);
      FailuresInWithin(pageCount, tikaMap, fp.required, ov);
      RetrySpecAttempts(failuresOf, qualityRetries, retrier, 0, fp.ocrPages, map[]);
      RetrySpecCounted(failuresOf, fp.required, pageCount, qualityRetries, retrier, 0, fp.ocrPages, map[]);
      RetrySpecKeepsOthers(failuresOf, fp.required, pageCount, qualityRetries, retrier, 0, fp.ocrPages, map[]);
    }
  }

  /** The retry stage: when OCR ran, the retry loop over the required pages; otherwise nothing changes. */
  method RetryStage(pageCount: int, tikaMap: map<int, string>, fp: FirstPass, ov: Option<Overrides>, qualityRetries: int,
                    retrier: Retrier)
    returns (r: Result<(map<int, OcrPage>, map<int, nat>), Failure>)
    ensures r == RetryStageSpec(pageCount, tikaMap, fp, ov, qualityRetries, retrier)
  {
    if fp.required == {} {
      return Ok((fp.ocrPages, map[]));
    }
    var retried, rounds := RetryLoop(pageCount, tikaMap, fp.required, ov, qualityRetries, retrier, fp.ocrPages);
    r := retried;
  }

  /**
   * The full text of the first pass: the OCR-backed pages' joined text when
   * OCR ran, else Tika's stripped content.
   */
  function FirstText(pageCount: int, tikaMap: map<int, string>, tika: Result<(string, seq<TikaPage>), Failure>,
                     fp: FirstPass, preferTikaText: bool): string
    requires fp.required == {} ==> tika.Ok?
  {
    if fp.required != {} then FullText(Tabulate(pageCount, p => PageFor(p, tikaMap, fp.ocrPages, fp.required, preferTikaText, map[])))
    else Strip(tika.value.0)
  }

  /** The first-pass pages and full text, and whether that text is empty. */
  method FirstPassEmpty(pageCount: int, tikaMap: map<int, string>, tika: Result<(string, seq<TikaPage>), Failure>,
                        fp: FirstPass, preferTikaText: bool) returns (empty: bool)
    requires fp.required == {} ==> tika.Ok?
    ensures empty <==> FirstText(pageCount, tikaMap, tika, fp, preferTikaText) == []
  {
    var pages: seq<Page>;
    var fullText: string;
    if fp.required != {} {
      pages := BuildPages(pageCount, tikaMap, fp.ocrPages, fp.required, preferTikaText, map[]);
      assert pages == Tabulate(pageCount, p => PageFor(p, tikaMap, fp.ocrPages, fp.required, preferTikaText, map[]));
      fullText := FullText(pages);
    } else {
      pages := BuildPages(pageCount, tikaMap, map[], {}, false, map[]);
      fullText := Strip(tika.value.0);
    }
    empty := fullText == [];
  }

  /** The final gate pass over every page and the document's quality summary. */
  method FinalQuality(pageCount: int, tikaMap: map<int, string>, ocrPages: map<int, OcrPage>, attempts: map<int, nat>,
                      required: set<int>, strict: bool, ov: Option<Overrides>) returns (quality: QualityResult)
    ensures quality == QualitySummaryOf(GatesOf(pageCount, tikaMap, ocrPages, attempts, ov), strict, ov)
  {
    var gates, failures := AssessPages(pageCount, tikaMap, ocrPages, attempts, required, ov);
    quality := QualitySummaryOf(gates, strict, ov);
  }

  /** The final pages: one per page number, built with the gates' selected sources. */
  function FinalPagesOf(pageCount: int, tikaMap: map<int, string>, required: set<int>, ocrPages: map<int, OcrPage>,
                        preferTikaText: bool, selected: map<int, Option<Source>>): seq<Page>
  {
    Tabulate(pageCount, p => PageFor(p, tikaMap, ocrPages, required, preferTikaText && required != {}, selected))
  }

  /** The full text: the joined page texts when OCR ran, else Tika's stripped content. */
  function FinalTextOf(tika: Result<(string, seq<TikaPage>), Failure>, fp: FirstPass, pages: seq<Page>): string
    requires fp.required == {} ==> tika.Ok?
  {
    if fp.required != {} then FullText(pages) else Strip(tika.value.0)
  }

  /** The final pages, rebuilt with the selected sources, and the full text. */
  method FinalPages(pageCount: int, tikaMap: map<int, string>, tika: Result<(string, seq<TikaPage>), Failure>, fp: FirstPass,
                    ocrPages: map<int, OcrPage>, preferTikaText: bool, selected: map<int, Option<Source>>)
    returns (pages: seq<Page>, fullText: string)
    requires fp.required == {} ==> tika.Ok?
    ensures pages == FinalPagesOf(pageCount, tikaMap, fp.required, ocrPages, preferTikaText, selected)
    ensures fullText == FinalTextOf(tika, fp, pages)
  {
    if fp.required != {} {
      pages := BuildPages(pageCount, tikaMap, ocrPages, fp.required, preferTikaText, selected);
      fullText := FullText(pages);
    } else {
      pages := BuildPages(pageCount, tikaMap, map[], {}, false, selected);
      fullText := Strip(tika.value.0);
    }
    ghost var spec := FinalPagesOf(pageCount, tikaMap, fp.required, ocrPages, preferTikaText, selected);
    forall i | 0 <= i < |pages|
      ensures pages[i] == spec[i]
    {
      if fp.required == {} {
        PageForFacts(i + 1, tikaMap, map[], {}, false, selected);
        PageForFacts(i + 1, tikaMap, ocrPages, {}, false, selected);
      }
    }
  }

  /** The diagram pipeline's result, when diagrams were asked for and the pipeline succeeded. */
  function DiagramsOf(req: Request, env: Environment): Option<DocumentDiagramsResult> {
    if req.extractDiagrams && env.diagrams.Ok? then Some(env.diagrams.value) else None
  }

  /** The pages of the result: rebuilt with the sources the final gates selected. */
  function AssembledPages(req: Request, pageCount: int, tika: Result<(string, seq<TikaPage>), Failure>, fp: FirstPass,
                          ocrPages: map<int, OcrPage>, gates: seq<QualityGate>): seq<Page>
  {
    var quality := QualitySummaryOf(gates, req.strictQuality, TargetOverrides(req.qualityTarget));
    FinalPagesOf(pageCount, TikaMapOf(tika), fp.required, ocrPages, req.forceOcr && tika.Ok?, SelectedSources(quality.pages))
  }

  /**
   * The result extract_pdf returns from the final OCR pages and retry
   * counts: the final gates and quality summary, the pages rebuilt with the
   * gates' selected sources, the full text, the stats, the metadata and the
   * diagrams.
   */
  function AssembleOf(req: Request, env: Environment, path: string, pageCount: int, tika: Result<(string, seq<TikaPage>), Failure>,
                      fp: FirstPass, ocrPages: map<int, OcrPage>, gates: seq<QualityGate>): ExtractionResult
    requires fp.required == {} ==> tika.Ok?
  {
    var quality := QualitySummaryOf(gates, req.strictQuality, TargetOverrides(req.qualityTarget));
    var pages := AssembledPages(req, pageCount, tika, fp, ocrPages, gates);
    ExtractionResult(env.docId, Basename(path), env.ingestedAt, MetadataOf(req.dpi, pageCount, tika.Err?, fp.required != {}),
                     pages, FinalTextOf(tika, fp, pages), StatsOf(pages), Some(quality), DiagramsOf(req, env))
  }

  /** The end of extract_pdf. */
  method Assemble(req: Request, env: Environment, path: string, pageCount: int, tika: Result<(string, seq<TikaPage>), Failure>,
                  fp: FirstPass, ocrPages: map<int, OcrPage>, attempts: map<int, nat>)
    returns (res: ExtractionResult)
    requires fp.required == {} ==> tika.Ok?
    ensures res == AssembleOf(req, env, path, pageCount, tika, fp, ocrPages,
                              GatesOf(pageCount, TikaMapOf(tika), ocrPages, attempts, TargetOverrides(req.qualityTarget)))
  {
    var ov := TargetOverrides(req.qualityTarget);
    var tikaMap := TikaMapOf(tika);
    var quality := FinalQuality(pageCount, tikaMap, ocrPages, attempts, fp.required, req.strictQuality, ov);
    var pages, fullText := FinalPages(pageCount, tikaMap, tika, fp, ocrPages, req.forceOcr && tika.Ok?, SelectedSources(quality.pages));
    var stats := CalculateStats(pages);
    var diagrams := DiagramsOf(req, env);
    var metadata := MetadataOf(req.dpi, pageCount, tika.Err?, fp.required != {});
    res := ExtractionResult(env.docId, Basename(path), env.ingestedAt, metadata, pages, fullText, stats, Some(quality), diagrams);
  }

  /**
   * extract_pdf after the preflight, as a function of the validated path,
   * the page count, Tika's outcome and the page retrier: the first pass,
   * the empty-content check, the retries and the result.
   */
  function DocumentSpec(req: Request, env: Environment, path: string, pageCount: int, tika: Result<(string, seq<TikaPage>), Failure>,
                        ocr: seq<PageImage> -> seq<OcrPage>, retrier: Retrier): Result<ExtractionResult, Failure>
  {
    match FirstPassSpec(req, tika, env, pageCount, ocr)
    case Err(e) => Err(e)
    case Ok(fp) =>
      var tikaMap := TikaMapOf(tika);
      if FirstText(pageCount, tikaMap, tika, fp, req.forceOcr && tika.Ok?) == [] then
        Err(Raised(ExtractionError(EmptyContent, "Extracted content is empty.")))
      else
        match RetryStageSpec(pageCount, tikaMap, fp, TargetOverrides(req.qualityTarget), req.qualityRetries, retrier)
        case Err(e) => Err(e)
        case Ok(st) => Ok(AssembleOf(req, env, path, pageCount, tika, fp, st.0, GatesOf(pageCount, tikaMap, st.0, st.1, TargetOverrides(req.qualityTarget))))
  }

  /** extract_pdf after the preflight. */
  method ExtractDocument(req: Request, env: Environment, path: string, pageCount: int, tika: Result<(string, seq<TikaPage>), Failure>,
                         retrier: Retrier)
    returns (r: Result<ExtractionResult, Failure>)
    ensures r == DocumentSpec(req, env, path, pageCount, tika, PagesSpec, retrier)
  {
    var first := FirstPassOf(req, tika, env, pageCount);
    if first.Err? {
      return Err(first.error);
    }
    var fp := first.value;
    var tikaMap := TikaMapOf(tika);
    var empty := FirstPassEmpty(pageCount, tikaMap, tika, fp, req.forceOcr && tika.Ok?);
    if empty {
      return Err(Raised(ExtractionError(EmptyContent, "Extracted content is empty.")));
    }
    var retried := RetryStage(pageCount, tikaMap, fp, TargetOverrides(req.qualityTarget), req.qualityRetries, retrier);
    if retried.Err? {
      return Err(retried.error);
    }
    var res := Assemble(req, env, path, pageCount, tika, fp, retried.value.0, retried.value.1);
    r := Ok(res);
  }

  /**
   * extract_pdf as a function of its arguments and the world's answers:
   * the preflight checks, Tika, then the document with the retries of
   * rerun_page_ocr on the environment's renderer.
   */
  function ExtractPdfSpec(req: Request, env: Environment): Result<ExtractionResult, Failure> {
    var pre := Preflight(env.path, env.onPath, env.pdfInfo, req.maxPages);
    if pre.Err? then Err(Raised(pre.error))
    else DocumentSpec(req, env, pre.value.0, pre.value.1, ExtractWithTika(env.tikaParse), PagesSpec, RetrierOf(env.rerender))
  }

  /**
   * extract_pdf: the preflight checks, Tika, OCR of the pages that need it,
   * the quality retries, the final quality gates and the result.
   */
  method ExtractPdf(req: Request, env: Environment) returns (r: Result<ExtractionResult, Failure>)
    ensures r == ExtractPdfSpec(req, env)
  {
    var pre := Preflight(env.path, env.onPath, env.pdfInfo, req.maxPages);
    if pre.Err? {
      return Err(Raised(pre.error));
    }
    var (path, pageCount) := pre.value;
    var tika := ExtractWithTika(env.tikaParse);
    r := ExtractDocument(req, env, path, pageCount, tika, RetrierOf(env.rerender));
  }

  /**
   * The ways extract_pdf fails after the preflight: missing OCR programs
   * when OCR is forced, an empty rendering when a page needs OCR, an empty
   * first-pass text on either path, and an error of the retries, which is
   * passed on unchanged. On the Tika-only path, the extraction succeeds
   * exactly when Tika succeeded with a text that is not blank.
   */
  lemma DocumentErrors(req: Request, env: Environment, path: string, pageCount: int, tika: Result<(string, seq<TikaPage>), Failure>,
                       ocr: seq<PageImage> -> seq<OcrPage>, retrier: Retrier)
    ensures var r := DocumentSpec(req, env, path, pageCount, tika, ocr, retrier);
      var tikaMap := TikaMapOf(tika);
      var required := OcrRequired(pageCount, tika.Err?, req.forceOcr, tikaMap);
      var binaries := EnsureBinaries(OcrBinaries, env.onPath);
      var first := FirstPassSpec(req, tika, env, pageCount, ocr);
      && (req.forceOcr && binaries.Some? ==> r == Err(Raised(binaries.value)))
      && (required != {} && binaries.None? && env.render.Ok? && ocr(env.render.value) == [] ==>
            r == Err(Raised(ExtractionError(PdfProcessing, "OCR did not return any pages."))))
      && (first.Ok? && FirstText(pageCount, tikaMap, tika, first.value, req.forceOcr && tika.Ok?) == [] ==>
            r == Err(Raised(ExtractionError(EmptyContent, "Extracted content is empty."))))
      && (first.Ok? && FirstText(pageCount, tikaMap, tika, first.value, req.forceOcr && tika.Ok?) != [] ==>
            var retried := RetryStageSpec(pageCount, tikaMap, first.value, TargetOverrides(req.qualityTarget), req.qualityRetries, retrier);
            retried.Err? ==> r == Err(retried.error))
      && (!req.forceOcr && required == {} ==> (r.Ok? <==> tika.Ok? && Strip(tika.value.0) != []))
  {
  }

  /** The gate of a page carries that page's number and retry count. */
  lemma GateAtFacts(page: int, tikaMap: map<int, string>, ocrPages: map<int, OcrPage>, attempts: map<int, nat>, ov: Option<Overrides>)
    ensures GateAt(page, tikaMap, ocrPages, attempts, ov).pageNumber == page
    ensures GateAt(page, tikaMap, ocrPages, attempts, ov).retryAttempts == AttemptsAt(attempts, page)
  {
    QualityGateFacts(page, TextAt(tikaMap, page), OcrAt(ocrPages, page), AttemptsAt(attempts, page), StrategyAt(ocrPages, page), ov);
  }

  lemma GatesOfAt(n: int, tikaMap: map<int, string>, ocrPages: map<int, OcrPage>, attempts: map<int, nat>, ov: Option<Overrides>, i: int)
    requires 0 <= i < Max0(n)
    ensures GatesOf(n, tikaMap, ocrPages, attempts, ov)[i] == GateAt(i + 1, tikaMap, ocrPages, attempts, ov)
  {
  }

  /**
   * The gates of pages 1..n: one per page number, in order, each carrying
   * that page's retry count.
   */
  lemma GatesOfFacts(n: int, tikaMap: map<int, string>, ocrPages: map<int, OcrPage>, attempts: map<int, nat>, ov: Option<Overrides>)
    ensures var gates := GatesOf(n, tikaMap, ocrPages, attempts, ov);
      forall i :: 0 <= i < |gates| ==> gates[i].pageNumber == i + 1 && gates[i].retryAttempts == AttemptsAt(attempts, i + 1)
  {
    var gates := GatesOf(n, tikaMap, ocrPages, attempts, ov);
    forall i | 0 <= i < |gates|
      ensures gates[i].pageNumber == i + 1 && gates[i].retryAttempts == AttemptsAt(attempts, i + 1)
    {
      GatesOfAt(n, tikaMap, ocrPages, attempts, ov, i);
      GateAtFacts(i + 1, tikaMap, ocrPages, attempts, ov);
    }
  }

  /**
   * When every retry count is within a bound and only required pages were
   * retried, every gate's retry count is within the bound, and zero for a
   * page that is not required.
   */
  lemma GatesOfRetries(n: int, tikaMap: map<int, string>, ocrPages: map<int, OcrPage>, attempts: map<int, nat>, ov: Option<Overrides>,
                       bound: nat, required: set<int>)
    requires forall p :: AttemptsAt(attempts, p) <= bound
    requires forall p :: p in attempts ==> p in required
    ensures var gates := GatesOf(n, tikaMap, ocrPages, attempts, ov);
      forall i :: 0 <= i < |gates| ==> gates[i].retryAttempts <= bound && (i + 1 !in required ==> gates[i].retryAttempts == 0)
  {
    GatesOfFacts(n, tikaMap, ocrPages, attempts, ov);
  }

  /** The final pages: one per page number, in order; a page that needed no OCR shows Tika's text. */
  lemma FinalPagesFacts(pageCount: int, tikaMap: map<int, string>, required: set<int>, ocrPages: map<int, OcrPage>,
                        preferTikaText: bool, selected: map<int, Option<Source>>)
    ensures var pages := FinalPagesOf(pageCount, tikaMap, required, ocrPages, preferTikaText, selected);
      && |pages| == Max0(pageCount)
      && (forall i :: 0 <= i < |pages| ==> pages[i].pageNumber == i + 1)
      && (forall i :: 0 <= i < |pages| && i + 1 !in required ==> pages[i].source == Tika && pages[i].text == TextAt(tikaMap, i + 1))
  {
    var pages := FinalPagesOf(pageCount, tikaMap, required, ocrPages, preferTikaText, selected);
    forall i | 0 <= i < |pages|
      ensures pages[i].pageNumber == i + 1
      ensures i + 1 !in required ==> pages[i].source == Tika && pages[i].text == TextAt(tikaMap, i + 1)
    {
      PageForFacts(i + 1, tikaMap, ocrPages, required, preferTikaText && required != {}, selected);
    }
  }

  /**
   * The result assembled from the final OCR pages and gates carries the
   * job's identifiers and the file's base name; its metadata says whether
   * OCR ran; its quality summary lists the gates; its stats are those of
   * its pages; without OCR its full text is Tika's stripped text.
   */
  lemma AssembleFields(req: Request, env: Environment, path: string, pageCount: int, tika: Result<(string, seq<TikaPage>), Failure>,
                       fp: FirstPass, ocrPages: map<int, OcrPage>, gates: seq<QualityGate>)
    requires fp.required == {} ==> tika.Ok?
    ensures var res := AssembleOf(req, env, path, pageCount, tika, fp, ocrPages, gates);
      && res.docId == env.docId && res.ingestedAt == env.ingestedAt && res.filename == Basename(path)
      && res.extraction == MetadataOf(req.dpi, pageCount, tika.Err?, fp.required != {})
      && res.quality.Some? && res.quality.value.pages == gates
      && res.stats == StatsOf(res.pages)
      && (fp.required == {} ==> res.fullText == Strip(tika.value.0))
  {
  }

  /**
   * The pages of the assembled result: one per page number, in order; a
   * page that needed no OCR shows Tika's text.
   */
  lemma AssemblePages(req: Request, pageCount: int, tika: Result<(string, seq<TikaPage>), Failure>,
                      fp: FirstPass, ocrPages: map<int, OcrPage>, gates: seq<QualityGate>)
    ensures var pages := AssembledPages(req, pageCount, tika, fp, ocrPages, gates);
      && |pages| == Max0(pageCount)
      && (forall i :: 0 <= i < |pages| ==> pages[i].pageNumber == i + 1)
      && (forall i :: 0 <= i < |pages| && i + 1 !in fp.required ==> pages[i].source == Tika && pages[i].text == TextAt(TikaMapOf(tika), i + 1))
  {
    var selected := SelectedSources(QualitySummaryOf(gates, req.strictQuality, TargetOverrides(req.qualityTarget)).pages);
    FinalPagesFacts(pageCount, TikaMapOf(tika), fp.required, ocrPages, req.forceOcr && tika.Ok?, selected);
  }

  /**
   * A successful extract_pdf after the preflight went through a successful
   * first pass for the pages that need OCR, a first-pass text that is not
   * empty and successful retries, and returns the result assembled from
   * the final OCR pages and gates.
   */
  lemma DocumentOk(req: Request, env: Environment, path: string, pageCount: int, tika: Result<(string, seq<TikaPage>), Failure>,
                   ocr: seq<PageImage> -> seq<OcrPage>, retrier: Retrier)
    ensures var r := DocumentSpec(req, env, path, pageCount, tika, ocr, retrier);
      var tikaMap := TikaMapOf(tika);
      var ov := TargetOverrides(req.qualityTarget);
      var first := FirstPassSpec(req, tika, env, pageCount, ocr);
      r.Ok? ==>
        && first.Ok? && first.value.required == OcrRequired(pageCount, tika.Err?, req.forceOcr, tikaMap)
        && (first.value.required == {} ==> tika.Ok?)
        && FirstText(pageCount, tikaMap, tika, first.value, req.forceOcr && tika.Ok?) != []
        && var retried := RetryStageSpec(pageCount, tikaMap, first.value, ov, req.qualityRetries, retrier);
           && retried.Ok?
           && r.value == AssembleOf(req, env, path, pageCount, tika, first.value, retried.value.0,
                                    GatesOf(pageCount, tikaMap, retried.value.0, retried.value.1, ov))
  {
  }

  /**
   * A successful extract_pdf after the preflight carries the job's
   * identifiers and the file's base name; its metadata says whether OCR
   * ran; its stats are those of its pages.
   */
  lemma DocumentFields(req: Request, env: Environment, path: string, pageCount: int, tika: Result<(string, seq<TikaPage>), Failure>,
                       ocr: seq<PageImage> -> seq<OcrPage>, retrier: Retrier)
    ensures var r := DocumentSpec(req, env, path, pageCount, tika, ocr, retrier);
      r.Ok? ==>
        && r.value.docId == env.docId && r.value.ingestedAt == env.ingestedAt && r.value.filename == Basename(path)
        && r.value.extraction == MetadataOf(req.dpi, pageCount, tika.Err?, OcrRequired(pageCount, tika.Err?, req.forceOcr, TikaMapOf(tika)) != {})
        && r.value.stats == StatsOf(r.value.pages)
  {
    var r := DocumentSpec(req, env, path, pageCount, tika, ocr, retrier);
    DocumentOk(req, env, path, pageCount, tika, ocr, retrier);
    if r.Ok? {
      var ov := TargetOverrides(req.qualityTarget);
      var fp := FirstPassSpec(req, tika, env, pageCount, ocr).value;
      var st := RetryStageSpec(pageCount, TikaMapOf(tika), fp, ov, req.qualityRetries, retrier).value;
      AssembleFields(req, env, path, pageCount, tika, fp, st.0, GatesOf(pageCount, TikaMapOf(tika), st.0, st.1, ov));
    }
  }

  /**
   * The pages of a successful extract_pdf after the preflight: one per page
   * number, in order; a page that needed no OCR shows Tika's text.
   */
  lemma DocumentPages(req: Request, env: Environment, path: string, pageCount: int, tika: Result<(string, seq<TikaPage>), Failure>,
                      ocr: seq<PageImage> -> seq<OcrPage>, retrier: Retrier)
    ensures var r := DocumentSpec(req, env, path, pageCount, tika, ocr, retrier);
      var required := OcrRequired(pageCount, tika.Err?, req.forceOcr, TikaMapOf(tika));
      r.Ok? ==>
        && |r.value.pages| == Max0(pageCount)
        && (forall i :: 0 <= i < |r.value.pages| ==> r.value.pages[i].pageNumber == i + 1)
        && (forall i :: 0 <= i < |r.value.pages| && i + 1 !in required ==>
              r.value.pages[i].source == Tika && r.value.pages[i].text == TextAt(TikaMapOf(tika), i + 1))
  {
    var r := DocumentSpec(req, env, path, pageCount, tika, ocr, retrier);
    DocumentOk(req, env, path, pageCount, tika, ocr, retrier);
    if r.Ok? {
      var ov := TargetOverrides(req.qualityTarget);
      var fp := FirstPassSpec(req, tika, env, pageCount, ocr).value;
      var st := RetryStageSpec(pageCount, TikaMapOf(tika), fp, ov, req.qualityRetries, retrier).value;
      AssemblePages(req, pageCount, tika, fp, st.0, GatesOf(pageCount, TikaMapOf(tika), st.0, st.1, ov));
    }
  }

  /**
   * On the Tika-only path a successful extract_pdf returns Tika's stripped
   * text as its full text, and that text is not blank.
   */
  lemma DocumentTikaText(req: Request, env: Environment, path: string, pageCount: int, tika: Result<(string, seq<TikaPage>), Failure>,
                         ocr: seq<PageImage> -> seq<OcrPage>, retrier: Retrier)
    ensures var r := DocumentSpec(req, env, path, pageCount, tika, ocr, retrier);
      r.Ok? && OcrRequired(pageCount, tika.Err?, req.forceOcr, TikaMapOf(tika)) == {} ==>
        tika.Ok? && r.value.fullText == Strip(tika.value.0) && r.value.fullText != []
  {
    var r := DocumentSpec(req, env, path, pageCount, tika, ocr, retrier);
    DocumentOk(req, env, path, pageCount, tika, ocr, retrier);
    if r.Ok? && OcrRequired(pageCount, tika.Err?, req.forceOcr, TikaMapOf(tika)) == {} {
      var ov := TargetOverrides(req.qualityTarget);
      var fp := FirstPassSpec(req, tika, env, pageCount, ocr).value;
      var st := RetryStageSpec(pageCount, TikaMapOf(tika), fp, ov, req.qualityRetries, retrier).value;
      AssembleFields(req, env, path, pageCount, tika, fp, st.0, GatesOf(pageCount, TikaMapOf(tika), st.0, st.1, ov));
      assert FirstText(pageCount, TikaMapOf(tika), tika, fp, req.forceOcr && tika.Ok?) == Strip(tika.value.0);
    }
  }

  /** The quality gates of a successful extract_pdf after the preflight: one per page number, in order. */
  lemma DocumentGates(req: Request, env: Environment, path: string, pageCount: int, tika: Result<(string, seq<TikaPage>), Failure>,
                      ocr: seq<PageImage> -> seq<OcrPage>, retrier: Retrier)
    ensures var r := DocumentSpec(req, env, path, pageCount, tika, ocr, retrier);
      r.Ok? ==>
        && r.value.quality.Some? && |r.value.quality.value.pages| == Max0(pageCount)
        && forall i :: 0 <= i < |r.value.quality.value.pages| ==> r.value.quality.value.pages[i].pageNumber == i + 1
  {
    var r := DocumentSpec(req, env, path, pageCount, tika, ocr, retrier);
    DocumentOk(req, env, path, pageCount, tika, ocr, retrier);
    if r.Ok? {
      var ov := TargetOverrides(req.qualityTarget);
      var fp := FirstPassSpec(req, tika, env, pageCount, ocr).value;
      var st := RetryStageSpec(pageCount, TikaMapOf(tika), fp, ov, req.qualityRetries, retrier).value;
      var gates := GatesOf(pageCount, TikaMapOf(tika), st.0, st.1, ov);
      AssembleFields(req, env, path, pageCount, tika, fp, st.0, gates);
      GatesOfFacts(pageCount, TikaMapOf(tika), st.0, st.1, ov);
    }
  }

  /**
   * The result assembled after successful retries: its retry counts are
   * never above the number of rounds, and zero for a page that did not
   * need OCR.
   */
  lemma AssembleRetries(req: Request, env: Environment, path: string, pageCount: int, tika: Result<(string, seq<TikaPage>), Failure>,
                        fp: FirstPass, retrier: Retrier)
    requires fp.required == {} ==> tika.Ok?
    ensures var ov := TargetOverrides(req.qualityTarget);
      var retried := RetryStageSpec(pageCount, TikaMapOf(tika), fp, ov, req.qualityRetries, retrier);
      retried.Ok? ==>
        var res := AssembleOf(req, env, path, pageCount, tika, fp, retried.value.0,
                              GatesOf(pageCount, TikaMapOf(tika), retried.value.0, retried.value.1, ov));
        && res.quality.Some?
        && forall i :: 0 <= i < |res.quality.value.pages| ==>
             && res.quality.value.pages[i].retryAttempts <= Max0(req.qualityRetries)
             && (i + 1 !in fp.required ==> res.quality.value.pages[i].retryAttempts == 0)
  {
    var ov := TargetOverrides(req.qualityTarget);
    var tikaMap := TikaMapOf(tika);
    var retried := RetryStageSpec(pageCount, tikaMap, fp, ov, req.qualityRetries, retrier);
    if retried.Ok? {
      var st := retried.value;
      var gates := GatesOf(pageCount, tikaMap, st.0, st.1, ov);
      AssembleFields(req, env, path, pageCount, tika, fp, st.0, gates);
      RetryStageFacts(pageCount, tikaMap, fp, ov, req.qualityRetries, retrier);
      GatesOfRetries(pageCount, tikaMap, st.0, st.1, ov, Max0(req.qualityRetries), fp.required);
    }
  }

  /**
   * The retry counts of a successful extract_pdf after the preflight: never
   * above the number of rounds, and zero for a page that did not need OCR.
   */
  lemma DocumentRetries(req: Request, env: Environment, path: string, pageCount: int, tika: Result<(string, seq<TikaPage>), Failure>,
                        ocr: seq<PageImage> -> seq<OcrPage>, retrier: Retrier)
    ensures var r := DocumentSpec(req, env, path, pageCount, tika, ocr, retrier);
      var required := OcrRequired(pageCount, tika.Err?, req.forceOcr, TikaMapOf(tika));
      r.Ok? ==>
        && r.value.quality.Some?
        && forall i :: 0 <= i < |r.value.quality.value.pages| ==>
             && r.value.quality.value.pages[i].retryAttempts <= Max0(req.qualityRetries)
             && (i + 1 !in required ==> r.value.quality.value.pages[i].retryAttempts == 0)
  {
    var r := DocumentSpec(req, env, path, pageCount, tika, ocr, retrier);
    DocumentOk(req, env, path, pageCount, tika, ocr, retrier);
    if r.Ok? {
      AssembleRetries(req, env, path, pageCount, tika, FirstPassSpec(req, tika, env, pageCount, ocr).value, retrier);
    }
  }

  /**
   * The ways extract_pdf fails: a failed preflight check is raised as it
   * is; otherwise missing OCR programs when OCR is forced, and on the
   * Tika-only path a failed or blank Tika extraction.
   */
  lemma ExtractPdfErrors(req: Request, env: Environment)
    ensures var r := ExtractPdfSpec(req, env);
      var pre := Preflight(env.path, env.onPath, env.pdfInfo, req.maxPages);
      var tika := ExtractWithTika(env.tikaParse);
      var binaries := EnsureBinaries(OcrBinaries, env.onPath);
      && (pre.Err? ==> r == Err(Raised(pre.error)))
      && (pre.Ok? && req.forceOcr && binaries.Some? ==> r == Err(Raised(binaries.value)))
      && (pre.Ok? && !req.forceOcr && OcrRequired(pre.value.1, tika.Err?, false, TikaMapOf(tika)) == {} ==>
            (r.Ok? <==> tika.Ok? && Strip(tika.value.0) != []))
  {
    var pre := Preflight(env.path, env.onPath, env.pdfInfo, req.maxPages);
    if pre.Ok? {
      DocumentErrors(req, env, pre.value.0, pre.value.1, ExtractWithTika(env.tikaParse), PagesSpec, RetrierOf(env.rerender));
    }
  }

  /**
   * What a successful extract_pdf returns: the preflight passed, the page
   * count is within the limit, and the result carries the job's
   * identifiers, the file's base name and one page per page number.
   */
  lemma ExtractPdfResult(req: Request, env: Environment)
    ensures var r := ExtractPdfSpec(req, env);
      var pre := Preflight(env.path, env.onPath, env.pdfInfo, req.maxPages);
      r.Ok? ==>
        && pre.Ok?
        && (req.maxPages.Some? ==> pre.value.1 <= req.maxPages.value)
        && r.value.docId == env.docId && r.value.ingestedAt == env.ingestedAt && r.value.filename == Basename(env.path.path)
        && |r.value.pages| == Max0(pre.value.1)
        && (forall i :: 0 <= i < |r.value.pages| ==> r.value.pages[i].pageNumber == i + 1)
  {
    var pre := Preflight(env.path, env.onPath, env.pdfInfo, req.maxPages);
    if pre.Ok? {
      var tika := ExtractWithTika(env.tikaParse);
      DocumentFields(req, env, pre.value.0, pre.value.1, tika, PagesSpec, RetrierOf(env.rerender));
      DocumentPages(req, env, pre.value.0, pre.value.1, tika, PagesSpec, RetrierOf(env.rerender));
    }
  }

  /**
   * The quality gates of a successful extract_pdf: one per page number, in
   * order, with retry counts within the number of rounds.
   */
  lemma ExtractPdfGates(req: Request, env: Environment)
    ensures var r := ExtractPdfSpec(req, env);
      var pre := Preflight(env.path, env.onPath, env.pdfInfo, req.maxPages);
      r.Ok? ==>
        && pre.Ok? && r.value.quality.Some? && |r.value.quality.value.pages| == Max0(pre.value.1)
        && (forall i :: 0 <= i < |r.value.quality.value.pages| ==>
              r.value.quality.value.pages[i].pageNumber == i + 1
              && r.value.quality.value.pages[i].retryAttempts <= Max0(req.qualityRetries))
  {
    var pre := Preflight(env.path, env.onPath, env.pdfInfo, req.maxPages);
    if pre.Ok? {
      var tika := ExtractWithTika(env.tikaParse);
      DocumentGates(req, env, pre.value.0, pre.value.1, tika, PagesSpec, RetrierOf(env.rerender));
      DocumentRetries(req, env, pre.value.0, pre.value.1, tika, PagesSpec, RetrierOf(env.rerender));
    }
  }
}
