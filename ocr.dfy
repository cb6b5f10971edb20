/**
 * Tesseract OCR with preprocessing strategies and consensus selection.
 *
 * Rendering, image preprocessing and Tesseract itself are inputs: a page
 * image is given by the densities classify_layout measures, the cell
 * rectangles OpenCV finds, and functions standing for Tesseract's answers.
 */
module Ocr {
  import opened Wrappers
  import opened Text
  import opened Numbers
  import opened Sorting
  import opened Schema
  import opened Utils

  const OcrOem: int := 1
  const PsmCandidates: seq<int> := [4, 6, 3, 11]
  const OcrLang: string := "eng"
  const OcrThreshold: int := 200
  const SelectionMinConf: real := 70.0
  const RetryDpi: seq<int> := [800, 1000]
  const RetryThresholds: seq<int> := [220, 180]
  const RetryOsd: seq<bool> := [true, false]

  /** A preprocessing strategy dictionary. */
  datatype Preprocess = Preprocess(
    name: string,
    threshold: int,
    useOsd: bool,
    medianSize: int,
    unsharp: (int, int, int),
    autocontrastCutoff: int)

  const Standard: Preprocess := Preprocess("standard", OcrThreshold, true, 3, (1, 150, 3), 1)
  const Aggressive: Preprocess := Preprocess("aggressive", 220, true, 5, (2, 200, 3), 2)
  const PreprocessStrategies: seq<Preprocess> := [Standard, Aggressive]

  datatype LayoutPreset = LayoutPreset(psm: seq<int>, preprocess: seq<string>)

  /** LAYOUT_PRESETS[layout]. */
  function Preset(layout: Layout): (p: LayoutPreset)
    ensures p.psm != []
  {
    match layout
    case TextLayout => LayoutPreset([6, 3], ["standard"])
    case TableLayout => LayoutPreset([4, 11, 6], ["aggressive", "standard"])
    case NoisyLayout => LayoutPreset([4, 6, 11, 3], ["aggressive", "standard"])
  }

  // ---------------------------------------------------------------- _build_config

  /** The part of the Tesseract command line every call shares: OEM, page segmentation mode, language. */
  function ConfigBase(psm: int, lang: string): string {
    "--oem " + IntToString(OcrOem) + " --psm " + IntToString(psm) + " -l " + lang
  }

  /** _build_config: the shared options, then the tessdata directory in quotes only when a non-empty one is given. */
  function BuildConfig(psm: int, lang: string, tessdataPath: Option<string>): (r: string)
    ensures StartsWith(r, ConfigBase(psm, lang))
    ensures r == ConfigBase(psm, lang) <==> tessdataPath.None? || tessdataPath.value == []
    ensures tessdataPath.Some? && tessdataPath.value != [] ==>
      r[|ConfigBase(psm, lang)|..] == " --tessdata-dir \"" + tessdataPath.value + "\""
  {
    var base := ConfigBase(psm, lang);
    if tessdataPath.Some? && tessdataPath.value != [] then
      var r := base + " --tessdata-dir \"" + tessdataPath.value + "\"";
      assert r[..|base|] == base;
      r
    else base
  }

  // ---------------------------------------------------------------- _otsu_threshold

  /** sum(histogram) */
  function NatSum(s: seq<nat>): nat {
    if s == [] then 0 else NatSum(s[..|s| - 1]) + s[|s| - 1]
  }

  /** sum(index * count for index, count in enumerate(histogram)) */
  function WeightedSum(s: seq<nat>): nat {
    if s == [] then 0 else WeightedSum(s[..|s| - 1]) + (|s| - 1) * s[|s| - 1]
  }

  lemma {:induction false} NatSumMonotone(s: seq<nat>, a: nat, b: nat)
    requires a <= b <= |s|
    ensures NatSum(s[..a]) <= NatSum(s[..b])
    decreases b - a
  {
    if a < b {
      NatSumMonotone(s, a, b - 1);
      assert s[..b][..b - 1] == s[..b - 1];
    }
  }

  /** Between-class variance for a split with the given weights and background sum. */
  function Between(wb: int, wf: int, sb: int, st: int): real
    requires wb > 0 && wf > 0
  {
    var mb := sb as real / wb as real;
    var mf := (st - sb) as real / wf as real;
    (wb as real) * (wf as real) * ((mb - mf) * (mb - mf))
  }

  /** Index k splits the histogram into two non-empty classes. */
  predicate Considered(hist: seq<nat>, k: int) {
    0 <= k < |hist| && NatSum(hist[..k + 1]) > 0 && NatSum(hist) - NatSum(hist[..k + 1]) > 0
  }

  /** The between-class variance of the split after index k. */
  function Variance(hist: seq<nat>, k: int): real
    requires Considered(hist, k)
  {
    Between(NatSum(hist[..k + 1]), NatSum(hist) - NatSum(hist[..k + 1]), WeightedSum(hist[..k + 1]), WeightedSum(hist))
  }

  /**
   * Otsu's threshold: the first index of strictly maximal positive variance
   * among the splits into two non-empty classes, or 200 when no split has
   * positive variance.
   */
  ghost predicate IsOtsuThreshold(hist: seq<nat>, t: int) {
    if exists k :: Considered(hist, k) && Variance(hist, k) > 0.0 then
      Considered(hist, t) && Variance(hist, t) > 0.0
      && (forall k :: Considered(hist, k) ==> Variance(hist, k) <= Variance(hist, t))
      && (forall k :: Considered(hist, k) && k < t ==> Variance(hist, k) < Variance(hist, t))
    else t == OcrThreshold
  }

  /** At most one value is Otsu's threshold. */
  lemma OtsuUnique(hist: seq<nat>, t1: int, t2: int)
    requires IsOtsuThreshold(hist, t1) && IsOtsuThreshold(hist, t2)
    ensures t1 == t2
  {
    if exists k :: Considered(hist, k) && Variance(hist, k) > 0.0 {
      assert Variance(hist, t1) <= Variance(hist, t2) && Variance(hist, t2) <= Variance(hist, t1);
    }
  }

  lemma PrefixStep(hist: seq<nat>, i: nat)
    requires i < |hist|
    ensures NatSum(hist[..i + 1]) == NatSum(hist[..i]) + hist[i]
    ensures WeightedSum(hist[..i + 1]) == WeightedSum(hist[..i]) + i * hist[i]
  {
    assert hist[..i + 1][..i] == hist[..i];
  }

  /** Once the background holds the whole histogram, no later index splits it. */
  lemma NoLaterSplit(hist: seq<nat>, i: nat)
    requires i < |hist| && NatSum(hist[..i + 1]) == NatSum(hist)
    ensures forall k :: i <= k < |hist| ==> !Considered(hist, k)
  {
    assert hist[..|hist|] == hist;
    forall k | i <= k < |hist| ensures !Considered(hist, k) {
      NatSumMonotone(hist, i + 1, k + 1);
      NatSumMonotone(hist, k + 1, |hist|);
    }
  }

  /** The state of the scan after the indices before i: the best split so far. */
  ghost predicate ScanInvariant(hist: seq<nat>, i: nat, t: int, maxVariance: real) {
    i <= |hist| && maxVariance >= 0.0
    && (forall k :: 0 <= k < i && Considered(hist, k) ==> Variance(hist, k) <= maxVariance)
    && (maxVariance == 0.0 ==> t == OcrThreshold)
    && (maxVariance > 0.0 ==>
          0 <= t < i && Considered(hist, t) && Variance(hist, t) == maxVariance
          && forall k :: 0 <= k < t && Considered(hist, k) ==> Variance(hist, k) < maxVariance)
  }

  /** A scan that has seen every index that splits the histogram has found Otsu's threshold. */
  lemma ScanConclusion(hist: seq<nat>, i: nat, t: int, maxVariance: real)
    requires ScanInvariant(hist, i, t, maxVariance)
    requires forall k :: i <= k < |hist| ==> !Considered(hist, k)
    ensures IsOtsuThreshold(hist, t)
  {
    if exists k :: Considered(hist, k) && Variance(hist, k) > 0.0 {
      var k :| Considered(hist, k) && Variance(hist, k) > 0.0;
      assert k < i;
    }
  }

  /** The main loop of _otsu_threshold, given the total weight and the total weighted sum. */
  method OtsuScan(hist: seq<nat>, total: nat, sumTotal: nat) returns (t: int)
    requires total == NatSum(hist) && sumTotal == WeightedSum(hist)
    ensures IsOtsuThreshold(hist, t)
    ensures t == OcrThreshold || 0 <= t < |hist|
  {
    assert hist[..|hist|] == hist;
    var sumBackground := 0;
    var weightBackground := 0;
    var maxVariance := 0.0;
    t := OcrThreshold;
    var i := 0;
    while i < |hist|
      invariant 0 <= i <= |hist|
      invariant weightBackground == NatSum(hist[..i])
      invariant sumBackground == WeightedSum(hist[..i])
      invariant ScanInvariant(hist, i, t, maxVariance)
    {
      PrefixStep(hist, i);
      weightBackground := weightBackground + hist[i];
      if weightBackground == 0 {
        assert !Considered(hist, i);
        i := i + 1;
        continue;
      }
      NatSumMonotone(hist, i + 1, |hist|);
      var weightForeground := total - weightBackground;
      if weightForeground == 0 {
        NoLaterSplit(hist, i);
        ScanConclusion(hist, i, t, maxVariance);
        return;
      }
      sumBackground := sumBackground + i * hist[i];
      var v := Between(weightBackground, weightForeground, sumBackground, sumTotal);
      assert Considered(hist, i) && v == Variance(hist, i);
      if v > maxVariance {
        maxVariance := v;
        t := i;
      }
      i := i + 1;
    }
    ScanConclusion(hist, i, t, maxVariance);
  }

  /** _otsu_threshold over a grey-level histogram. */
  method OtsuThreshold(hist: seq<nat>) returns (t: int)
    ensures IsOtsuThreshold(hist, t)
    ensures t == OcrThreshold || 0 <= t < |hist|
    ensures NatSum(hist) == 0 ==> t == OcrThreshold
  {
    var total := NatSum(hist);
    if total == 0 {
      assert hist[..|hist|] == hist;
      forall k | 0 <= k < |hist| ensures !Considered(hist, k) {
        NatSumMonotone(hist, k + 1, |hist|);
      }
      ScanConclusion(hist, |hist|, OcrThreshold, 0.0);
      return OcrThreshold;
    }
    var sumTotal := 0;
    var i := 0;
    while i < |hist|
      invariant 0 <= i <= |hist|
      invariant sumTotal == WeightedSum(hist[..i])
    {
      PrefixStep(hist, i);
      sumTotal := sumTotal + i * hist[i];
      i := i + 1;
    }
    assert hist[..|hist|] == hist;
    t := OtsuScan(hist, total, sumTotal);
  }

  /** int(x / 2) for an integer x: halves and truncates toward zero. */
  function TruncHalf(x: int): int {
    if x >= 0 then x / 2 else -((-x) / 2)
  }

  /** _select_threshold: the mean of Otsu's threshold and the configured one, truncated (OCR_USE_OTSU is on). */
  method SelectThreshold(hist: seq<nat>, threshold: int) returns (t: int)
    ensures forall o :: IsOtsuThreshold(hist, o) ==> t == TruncHalf(o + threshold)
  {
    var otsu := OtsuThreshold(hist);
    forall o | IsOtsuThreshold(hist, o) ensures o == otsu {
      OtsuUnique(hist, o, otsu);
    }
    t := TruncHalf(otsu + threshold);
  }

  // ---------------------------------------------------------------- _extract_tokens

  /**
   * One entry of image_to_data's output: the text (None for a null entry),
   * the confidence (None when float() of it fails) and the box.
   */
  datatype TessEntry = TessEntry(text: Option<string>, conf: Option<real>, left: int, top: int, width: int, height: int)

  type TesseractData = seq<TessEntry>

  /** (text or "").strip() */
  function EntryText(e: TessEntry): string {
    Strip(if e.text.Some? then e.text.value else "")
  }

  /** float(conf), or -1.0 when it cannot be parsed. */
  function EntryConf(e: TessEntry): real {
    if e.conf.Some? then e.conf.value else -1.0
  }

  /** An entry becomes a token exactly when its stripped text is non-empty and its confidence is not negative. */
  predicate Kept(e: TessEntry) {
    EntryText(e) != [] && EntryConf(e) >= 0.0
  }

  function EntryToken(e: TessEntry): Token {
    Token(EntryText(e), BBox(e.left, e.top, e.width, e.height), EntryConf(e))
  }

  /** The images under f of those of the first n elements that satisfy keep, in order. */
  function KeepMap<T, U>(s: seq<T>, n: nat, keep: T -> bool, f: T -> U): (r: seq<U>)
    requires n <= |s|
    ensures |r| <= n
  {
    if n == 0 then []
    else KeepMap(s, n - 1, keep, f) + (if keep(s[n - 1]) then [f(s[n - 1])] else [])
  }

  lemma KeepMapNext<T, U>(s: seq<T>, n: nat, keep: T -> bool, f: T -> U)
    requires n < |s|
    ensures KeepMap(s, n + 1, keep, f) == KeepMap(s, n, keep, f) + (if keep(s[n]) then [f(s[n])] else [])
  {
  }

  lemma {:induction false} KeepMapPrefix<T, U>(s: seq<T>, m: nat, n: nat, keep: T -> bool, f: T -> U)
    requires m <= n <= |s|
    ensures KeepMap(s, m, keep, f) <= KeepMap(s, n, keep, f)
    decreases n - m
  {
    if m < n {
      KeepMapPrefix(s, m, n - 1, keep, f);
    }
  }

  lemma KeepMapPresent<T, U>(s: seq<T>, n: nat, i: nat, keep: T -> bool, f: T -> U)
    requires i < n <= |s| && keep(s[i])
    ensures f(s[i]) in KeepMap(s, n, keep, f)
  {
    KeepMapPrefix(s, i + 1, n, keep, f);
    assert KeepMap(s, n, keep, f)[|KeepMap(s, i, keep, f)|] == f(s[i]);
  }

  lemma {:induction false} KeepMapOrigin<T, U>(s: seq<T>, n: nat, keep: T -> bool, f: T -> U, u: U)
    requires n <= |s| && u in KeepMap(s, n, keep, f)
    ensures exists j :: 0 <= j < n && keep(s[j]) && f(s[j]) == u
  {
    if u !in KeepMap(s, n - 1, keep, f) {
      assert keep(s[n - 1]) && f(s[n - 1]) == u;
    } else {
      KeepMapOrigin(s, n - 1, keep, f, u);
    }
  }

  /** The tokens of the first n entries, in entry order. */
  function KeptTokens(data: TesseractData, n: nat): (r: seq<Token>)
    requires n <= |data|
    ensures |r| <= n
  {
    KeepMap(data, n, Kept, EntryToken)
  }

  /** Every kept entry yields a token. */
  lemma KeptTokensComplete(data: TesseractData, n: nat)
    requires n <= |data|
    ensures forall i :: 0 <= i < n && Kept(data[i]) ==> EntryToken(data[i]) in KeptTokens(data, n)
  {
    forall i | 0 <= i < n && Kept(data[i]) {
      KeepMapPresent(data, n, i, Kept, EntryToken);
    }
  }

  /** Every token comes from a kept entry. */
  lemma KeptTokensOrigin(data: TesseractData, n: nat, t: Token)
    requires n <= |data|
    requires t in KeptTokens(data, n)
    ensures exists j :: 0 <= j < n && Kept(data[j]) && EntryToken(data[j]) == t
  {
    KeepMapOrigin(data, n, Kept, EntryToken, t);
  }

  /** Every token has stripped non-empty text and a non-negative confidence. */
  lemma KeptTokensShape(data: TesseractData, n: nat)
    requires n <= |data|
    ensures forall i :: 0 <= i < |KeptTokens(data, n)| ==>
      KeptTokens(data, n)[i].text != [] && IsStripped(KeptTokens(data, n)[i].text) && KeptTokens(data, n)[i].confidence >= 0.0
  {
    forall i | 0 <= i < |KeptTokens(data, n)|
      ensures KeptTokens(data, n)[i].text != [] && IsStripped(KeptTokens(data, n)[i].text) && KeptTokens(data, n)[i].confidence >= 0.0
    {
      KeptTokensOrigin(data, n, KeptTokens(data, n)[i]);
      var j :| 0 <= j < n && Kept(data[j]) && EntryToken(data[j]) == KeptTokens(data, n)[i];
      StripFacts(if data[j].text.Some? then data[j].text.value else "");
    }
  }

  /** One more entry: its token follows when the entry is kept. */
  lemma KeptTokensNext(data: TesseractData, n: nat)
    requires n < |data|
    ensures KeptTokens(data, n + 1) == KeptTokens(data, n) + (if Kept(data[n]) then [EntryToken(data[n])] else [])
  {
    KeepMapNext(data, n, Kept, EntryToken);
  }

  /** One iteration of _extract_tokens: a kept entry appends its token, text and confidence. */
  method TakeEntry(e: TessEntry, tokens: seq<Token>, texts: seq<string>, confs: seq<real>)
      returns (tokens': seq<Token>, texts': seq<string>, confs': seq<real>)
    requires texts == TokenTexts(tokens) && confs == Confidences(tokens)
    ensures tokens' == tokens + (if Kept(e) then [EntryToken(e)] else [])
    ensures texts' == TokenTexts(tokens') && confs' == Confidences(tokens')
  {
    tokens', texts', confs' := tokens, texts, confs;
    var text := Strip(if e.text.Some? then e.text.value else "");
    if text != [] {
      var confidence := if e.conf.Some? then e.conf.value else -1.0;
      if confidence >= 0.0 {
        var token := Token(text, BBox(e.left, e.top, e.width, e.height), confidence);
        TokenListsAppend(tokens, token);
        texts' := texts + [text];
        confs' := confs + [confidence];
        tokens' := tokens + [token];
      }
    }
  }

  /** _extract_tokens: the kept tokens with their texts and confidences as parallel lists. */
  method ExtractTokens(data: TesseractData) returns (tokens: seq<Token>, texts: seq<string>, confs: seq<real>)
    ensures tokens == KeptTokens(data, |data|)
    ensures texts == TokenTexts(tokens) && confs == Confidences(tokens)
  {
    tokens, texts, confs := [], [], [];
    var index := 0;
    while index < |data|
      invariant 0 <= index <= |data|
      invariant tokens == KeptTokens(data, index)
      invariant texts == TokenTexts(tokens) && confs == Confidences(tokens)
    {
      KeptTokensNext(data, index);
      tokens, texts, confs := TakeEntry(data[index], tokens, texts, confs);
      index := index + 1;
    }
  }

  // ---------------------------------------------------------------- _score_page, _page_text

  /** _score_page: the mean of the confidences of at least 70 (0.0 when none) and the number of confidences. */
  function ScorePage(confs: seq<real>): (r: (real, nat))
    ensures r.1 == |confs|
    ensures AtLeast(confs, SelectionMinConf) == [] ==> r.0 == 0.0
    ensures AtLeast(confs, SelectionMinConf) != [] ==>
      r.0 == Mean(AtLeast(confs, SelectionMinConf)) && r.0 >= SelectionMinConf
  {
    if confs == [] then (0.0, 0)
    else
      var filtered := AtLeast(confs, SelectionMinConf);
      if filtered == [] then (0.0, |confs|)
      else
        MeanAtLeast(filtered, SelectionMinConf);
        (Mean(filtered), |confs|)
  }

  /** _page_text: the token texts joined by spaces, stripped. */
  function PageText(texts: seq<string>): string {
    Strip(Join(texts, " "))
  }

  /** The page text is stripped, and for words the join needs no stripping. */
  lemma PageTextWords(texts: seq<string>)
    ensures IsStripped(PageText(texts))
    ensures AreWords(texts) ==> PageText(texts) == Join(texts, " ")
  {
    StripFacts(Join(texts, " "));
    if AreWords(texts) {
      JoinWordsStripped(texts);
      StripIdentity(Join(texts, " "));
    }
  }

  // ---------------------------------------------------------------- classify_layout

  /** The decision of classify_layout on the measured densities. */
  function ClassifyLayout(lineDensity: real, inkDensity: real, edgeDensity: real): (l: Layout)
    ensures l == TableLayout <==> lineDensity > 0.01
    ensures l == TextLayout <==> lineDensity <= 0.01 && inkDensity > 0.10 && edgeDensity < 0.08
    ensures l == NoisyLayout <==> lineDensity <= 0.01 && !(inkDensity > 0.10 && edgeDensity < 0.08)
  {
    if lineDensity > 0.01 then TableLayout
    else if inkDensity > 0.10 && edgeDensity < 0.08 then TextLayout
    else NoisyLayout
  }

  // ---------------------------------------------------------------- table cells

  function CellKey(b: BBox): (real, real) {
    ((b.y as real), (b.x as real))
  }

  predicate LargeCell(b: BBox) {
    b.w >= 20 && b.h >= 20
  }

  /** The bounding rectangles of at least 20 by 20, in input order. */
  function LargeCells(boxes: seq<BBox>): (r: seq<BBox>)
    ensures forall i :: 0 <= i < |r| ==> LargeCell(r[i])
    ensures forall b :: b in r <==> b in boxes && LargeCell(b)
  {
    if boxes == [] then []
    else LargeCells(boxes[..|boxes| - 1]) + (if LargeCell(boxes[|boxes| - 1]) then [boxes[|boxes| - 1]] else [])
  }

  /** extract_table_cells: the large cells, ordered by (y, x), ties kept in contour order. */
  function ExtractTableCells(boxes: seq<BBox>): (r: seq<BBox>)
    ensures SortedBy(r, CellKey)
    ensures multiset(r) == multiset(LargeCells(boxes))
    ensures forall i :: 0 <= i < |r| ==> LargeCell(r[i])
    ensures forall k :: KeyFilter(r, CellKey, k) == KeyFilter(LargeCells(boxes), CellKey, k)
  {
    var large := LargeCells(boxes);
    SortByProperties(large, CellKey);
    forall k ensures KeyFilter(SortBy(large, CellKey), CellKey, k) == KeyFilter(large, CellKey, k) {
      SortByStable(large, CellKey, k);
    }
    forall i | 0 <= i < |SortBy(large, CellKey)| ensures LargeCell(SortBy(large, CellKey)[i]) {
      assert SortBy(large, CellKey)[i] in multiset(large);
    }
    SortBy(large, CellKey)
  }

  /** The running state of the row grouping in ocr_table_cells. */
  datatype RowState = RowState(rows: seq<seq<string>>, current: seq<string>, rowY: Option<int>)

  function Abs(x: int): nat { if x < 0 then -x else x }

  /** One cell: start a new row when the cell's y is more than its height away from the row's y; keep non-empty text. */
  function GroupStep(st: RowState, b: BBox, text: string): RowState {
    var st1 :=
      if st.rowY.None? || Abs(b.y - st.rowY.value) > b.h then
        RowState(if st.current != [] then st.rows + [st.current] else st.rows, [], Some(b.y))
      else st;
    if text != [] then st1.(current := st1.current + [text]) else st1
  }

  /** image_to_string(cell).strip() */
  function CellText(cellOcr: BBox -> string, b: BBox): string {
    Strip(cellOcr(b))
  }

  function GroupCells(boxes: seq<BBox>, cellOcr: BBox -> string): RowState {
    if boxes == [] then RowState([], [], None)
    else GroupStep(GroupCells(boxes[..|boxes| - 1], cellOcr), boxes[|boxes| - 1], CellText(cellOcr, boxes[|boxes| - 1]))
  }

  /** The rows of a table: the grouped rows plus the last open row when it is non-empty. */
  function TableRows(boxes: seq<BBox>, cellOcr: BBox -> string): seq<seq<string>> {
    var st := GroupCells(boxes, cellOcr);
    if st.current != [] then st.rows + [st.current] else st.rows
  }

  /** The non-empty cell texts, in box order. */
  function CellTexts(boxes: seq<BBox>, cellOcr: BBox -> string): (r: seq<string>)
    ensures forall i :: 0 <= i < |r| ==> r[i] != []
  {
    if boxes == [] then []
    else
      var t := CellText(cellOcr, boxes[|boxes| - 1]);
      CellTexts(boxes[..|boxes| - 1], cellOcr) + (if t != [] then [t] else [])
  }

  /** One token per non-empty cell, with the cell's box and confidence 0.0. */
  function CellTokens(boxes: seq<BBox>, cellOcr: BBox -> string): (r: seq<Token>)
    ensures TokenTexts(r) == CellTexts(boxes, cellOcr)
    ensures forall i :: 0 <= i < |r| ==> r[i].confidence == 0.0
  {
    if boxes == [] then []
    else
      var b := boxes[|boxes| - 1];
      var t := CellText(cellOcr, b);
      var prev := CellTokens(boxes[..|boxes| - 1], cellOcr);
      if t != [] then
        TokenListsAppend(prev, Token(t, b, 0.0));
        prev + [Token(t, b, 0.0)]
      else prev
  }

  function Flatten(rows: seq<seq<string>>): seq<string> {
    if rows == [] then [] else Flatten(rows[..|rows| - 1]) + rows[|rows| - 1]
  }

  lemma {:induction false} FlattenAppend(rows: seq<seq<string>>, row: seq<string>)
    ensures Flatten(rows + [row]) == Flatten(rows) + row
  {
    assert (rows + [row])[..|rows|] == rows;
  }

  predicate NonEmptyRows(rows: seq<seq<string>>) {
    forall i :: 0 <= i < |rows| ==> rows[i] != []
  }

  /** A grouping step keeps rows non-empty and appends the cell's text, if any, to the texts read so far. */
  lemma GroupStepInvariant(st: RowState, b: BBox, text: string)
    requires NonEmptyRows(st.rows)
    ensures NonEmptyRows(GroupStep(st, b, text).rows)
    ensures Flatten(GroupStep(st, b, text).rows) + GroupStep(st, b, text).current
         == Flatten(st.rows) + st.current + (if text != [] then [text] else [])
  {
    var st1 :=
      if st.rowY.None? || Abs(b.y - st.rowY.value) > b.h then
        RowState(if st.current != [] then st.rows + [st.current] else st.rows, [], Some(b.y))
      else st;
    assert Flatten(st1.rows) + st1.current == Flatten(st.rows) + st.current by {
      if st.rowY.None? || Abs(b.y - st.rowY.value) > b.h {
        if st.current != [] {
          FlattenAppend(st.rows, st.current);
        } else {
          assert st1.current == [] && st.current == [];
        }
      }
    }
    assert NonEmptyRows(st1.rows);
    if text != [] {
      assert GroupStep(st, b, text) == st1.(current := st1.current + [text]);
    } else {
      assert GroupStep(st, b, text) == st1;
    }
  }

  lemma {:induction false} GroupCellsInvariant(boxes: seq<BBox>, cellOcr: BBox -> string)
    ensures NonEmptyRows(GroupCells(boxes, cellOcr).rows)
    ensures Flatten(GroupCells(boxes, cellOcr).rows) + GroupCells(boxes, cellOcr).current == CellTexts(boxes, cellOcr)
  {
    if boxes != [] {
      var init := boxes[..|boxes| - 1];
      var b := boxes[|boxes| - 1];
      GroupCellsInvariant(init, cellOcr);
      GroupStepInvariant(GroupCells(init, cellOcr), b, CellText(cellOcr, b));
    }
  }

  /** The table's rows are non-empty, and read in order they are exactly the non-empty cell texts. */
  lemma TableRowsFlatten(boxes: seq<BBox>, cellOcr: BBox -> string)
    ensures NonEmptyRows(TableRows(boxes, cellOcr))
    ensures Flatten(TableRows(boxes, cellOcr)) == CellTexts(boxes, cellOcr)
  {
    GroupCellsInvariant(boxes, cellOcr);
    var st := GroupCells(boxes, cellOcr);
    if st.current != [] {
      FlattenAppend(st.rows, st.current);
    }
  }

  /** The table text: cells joined by tabs, rows by newlines, stripped. */
  function TableText(rows: seq<seq<string>>): string {
    Strip(Join(seq(|rows|, i requires 0 <= i < |rows| => Join(rows[i], "\t")), "\n"))
  }

  /** One cell of the loop in ocr_table_cells: close the open row if the cell starts a new one, then add its text. */
  method GroupCell(rows: seq<seq<string>>, currentRow: seq<string>, currentRowY: Option<int>, b: BBox, text: string)
    returns (rows': seq<seq<string>>, currentRow': seq<string>, currentRowY': Option<int>)
    ensures RowState(rows', currentRow', currentRowY') == GroupStep(RowState(rows, currentRow, currentRowY), b, text)
  {
    rows', currentRow', currentRowY' := rows, currentRow, currentRowY;
    if currentRowY.None? || Abs(b.y - currentRowY.value) > b.h {
      if currentRow != [] {
        rows' := rows + [currentRow];
      }
      currentRow' := [];
      currentRowY' := Some(b.y);
    }
    if text != [] {
      currentRow' := currentRow' + [text];
    }
  }

  /** ocr_table_cells: the table text of the grouped rows and one token per non-empty cell. */
  method OcrTableCells(boxes: seq<BBox>, cellOcr: BBox -> string) returns (tableText: string, tokens: seq<Token>)
    ensures tableText == TableText(TableRows(boxes, cellOcr))
    ensures tokens == CellTokens(boxes, cellOcr)
  {
    tokens := [];
    var rows: seq<seq<string>> := [];
    var currentRowY: Option<int> := None;
    var currentRow: seq<string> := [];
    var k := 0;
    while k < |boxes|
      invariant 0 <= k <= |boxes|
      invariant GroupCells(boxes[..k], cellOcr) == RowState(rows, currentRow, currentRowY)
      invariant tokens == CellTokens(boxes[..k], cellOcr)
    {
      assert boxes[..k + 1][..k] == boxes[..k];
      var b := boxes[k];
      var text := Strip(cellOcr(b));
      rows, currentRow, currentRowY := GroupCell(rows, currentRow, currentRowY, b, text);
      if text != [] {
        tokens := tokens + [Token(text, b, 0.0)];
      }
      k := k + 1;
    }
    assert boxes[..|boxes|] == boxes;
    if currentRow != [] {
      rows := rows + [currentRow];
    }
    tableText := TableText(rows);
  }

  // ---------------------------------------------------------------- _ocr_page

  /** One OCR result of a page: what _ocr_page, _process_one_ocr_page and rerun_page_ocr return. */
  datatype OcrPage = OcrPage(
    text: string,
    tokens: seq<Token>,
    passSimilarity: Option<real>,
    strategy: Strategy,
    layout: Option<Layout>)

  /** Tesseract's image_to_data on the page preprocessed by a strategy, for a page segmentation mode. */
  type Tesseract = (Preprocess, int) -> TesseractData

  datatype Candidate = Candidate(text: string, tokens: seq<Token>, score: (real, nat), strategy: Strategy, consensus: real)

  function StrategyOf(p: Preprocess, psm: int): Strategy {
    EmptyStrategy.(name := Some(p.name), psm := Some(psm), threshold := Some(p.threshold),
      useOsd := Some(p.useOsd), medianSize := Some(p.medianSize), unsharp := Some(p.unsharp),
      autocontrastCutoff := Some(p.autocontrastCutoff))
  }

  /** The candidate of one (strategy, psm) pair, before its consensus is known. */
  function CandidateFor(p: Preprocess, psm: int, tess: Tesseract): Candidate {
    var data := tess(p, psm);
    var tokens := KeptTokens(data, |data|);
    Candidate(PageText(TokenTexts(tokens)), tokens, ScorePage(Confidences(tokens)), StrategyOf(p, psm), 0.0)
  }

  /** The candidates of one strategy, one per psm, in order. */
  function Row(p: Preprocess, psms: seq<int>, tess: Tesseract): (r: seq<Candidate>)
    ensures |r| == |psms|
  {
    if psms == [] then [] else Row(p, psms[..|psms| - 1], tess) + [CandidateFor(p, psms[|psms| - 1], tess)]
  }

  /** The candidates of every strategy, and within a strategy of every psm, in loop order. */
  function CandidatesOf(ps: seq<Preprocess>, psms: seq<int>, tess: Tesseract): seq<Candidate> {
    if ps == [] then [] else CandidatesOf(ps[..|ps| - 1], psms, tess) + Row(ps[|ps| - 1], psms, tess)
  }

  /** One candidate per strategy and psm. */
  lemma {:induction false} CandidatesCount(ps: seq<Preprocess>, psms: seq<int>, tess: Tesseract)
    ensures |CandidatesOf(ps, psms, tess)| == |ps| * |psms|
  {
    if ps != [] {
      CandidatesCount(ps[..|ps| - 1], psms, tess);
      assert (|ps| - 1) * |psms| + |psms| == |ps| * |psms|;
    }
  }

  /** s is the strategy of one of the given strategies with one of the given psms. */
  ghost predicate AmongStrategies(s: Strategy, ps: seq<Preprocess>, psms: seq<int>) {
    exists i, j :: 0 <= i < |ps| && 0 <= j < |psms| && s == StrategyOf(ps[i], psms[j])
  }

  /** The candidates of all strategies are those of all but the last, then the last one's row. */
  lemma CandidatesSplit(ps: seq<Preprocess>, psms: seq<int>, tess: Tesseract)
    requires ps != []
    ensures CandidatesOf(ps, psms, tess) == CandidatesOf(ps[..|ps| - 1], psms, tess) + Row(ps[|ps| - 1], psms, tess)
  {
  }

  lemma {:induction false} RowStrategy(p: Preprocess, psms: seq<int>, tess: Tesseract, j: nat)
    requires j < |psms|
    ensures Row(p, psms, tess)[j].strategy == StrategyOf(p, psms[j])
  {
    if j < |psms| - 1 {
      RowStrategy(p, psms[..|psms| - 1], tess, j);
    }
  }

  /** Candidate k's strategy is that of one of the given strategies with one of the given psms. */
  lemma {:induction false} CandidateStrategy(ps: seq<Preprocess>, psms: seq<int>, tess: Tesseract, k: nat)
    requires k < |CandidatesOf(ps, psms, tess)|
    ensures AmongStrategies(CandidatesOf(ps, psms, tess)[k].strategy, ps, psms)
  {
    var init := ps[..|ps| - 1];
    var prev := CandidatesOf(init, psms, tess);
    CandidatesSplit(ps, psms, tess);
    if k < |prev| {
      CandidateStrategy(init, psms, tess, k);
      var i, j :| 0 <= i < |init| && 0 <= j < |psms| && prev[k].strategy == StrategyOf(init[i], psms[j]);
      assert CandidatesOf(ps, psms, tess)[k] == prev[k];
      assert init[i] == ps[i];
    } else {
      var j := k - |prev|;
      RowStrategy(ps[|ps| - 1], psms, tess, j);
      assert CandidatesOf(ps, psms, tess)[k] == Row(ps[|ps| - 1], psms, tess)[j];
      assert 0 <= |ps| - 1 < |ps|;
    }
  }

  /** Every candidate's strategy is that of one of the given strategies with one of the given psms. */
  lemma CandidatesStrategies(ps: seq<Preprocess>, psms: seq<int>, tess: Tesseract)
    ensures forall k :: 0 <= k < |CandidatesOf(ps, psms, tess)| ==> AmongStrategies(CandidatesOf(ps, psms, tess)[k].strategy, ps, psms)
  {
    forall k | 0 <= k < |CandidatesOf(ps, psms, tess)| {
      CandidateStrategy(ps, psms, tess, k);
    }
  }

  function Texts(cands: seq<Candidate>): seq<string> {
    seq(|cands|, i requires 0 <= i < |cands| => cands[i].text)
  }

  /** A similarity measure on texts; the ensemble uses similarity_ratio. */
  type Similarity = (string, string) -> Option<real>

  /** The similarity of text i against every text. */
  function RatiosOf(texts: seq<string>, i: nat, sim: Similarity): (r: seq<Option<real>>)
    requires i < |texts|
    ensures |r| == |texts|
  {
    seq(|texts|, j requires 0 <= j < |texts| => sim(texts[i], texts[j]))
  }

  /** The defined ratios before n, skipping position i (the text itself). */
  function DefinedOthers(ratios: seq<Option<real>>, i: nat, n: nat): seq<real>
    requires n <= |ratios|
  {
    if n == 0 then []
    else DefinedOthers(ratios, i, n - 1) + (if n - 1 != i && ratios[n - 1].Some? then [ratios[n - 1].value] else [])
  }

  /** The similarities of text i to the texts before n other than itself, where they are defined. */
  function Similarities(texts: seq<string>, i: nat, n: nat, sim: Similarity): seq<real>
    requires i < |texts| && n <= |texts|
  {
    DefinedOthers(RatiosOf(texts, i, sim), i, n)
  }

  /** The mean similarity, or 1.0 when there is nothing to compare with. */
  function Consensus(sims: seq<real>): real {
    if sims == [] then 1.0 else Mean(sims)
  }

  /** The candidates with their consensus similarities set. */
  function WithConsensus(cands: seq<Candidate>, sim: Similarity): (r: seq<Candidate>)
    ensures |r| == |cands|
  {
    seq(|cands|, i requires 0 <= i < |cands| =>
      cands[i].(consensus := Consensus(Similarities(Texts(cands), i, |cands|, sim))))
  }

  /** The key max() compares: (consensus, score). */
  predicate CandLt(a: Candidate, b: Candidate) {
    a.consensus < b.consensus
    || (a.consensus == b.consensus && (a.score.0 < b.score.0 || (a.score.0 == b.score.0 && a.score.1 < b.score.1)))
  }

  /** max() by key: the first candidate whose key no other candidate's exceeds. */
  function FirstMax(cands: seq<Candidate>): (k: nat)
    requires cands != []
    ensures k < |cands|
    ensures forall j :: 0 <= j < |cands| ==> !CandLt(cands[k], cands[j])
    ensures forall j :: 0 <= j < k ==> CandLt(cands[j], cands[k])
  {
    if |cands| == 1 then 0
    else
      var k := FirstMax(cands[..|cands| - 1]);
      assert forall j :: 0 <= j < |cands| - 1 ==> cands[..|cands| - 1][j] == cands[j];
      if CandLt(cands[k], cands[|cands| - 1]) then |cands| - 1 else k
  }

  /** The page _ocr_page builds from its scored candidates: an empty page without candidates, else the best one's. */
  function BestPage(cands: seq<Candidate>, psms: seq<int>): OcrPage {
    if cands == [] then
      OcrPage("", [], None, EmptyStrategy.(name := Some("none"), psmCandidates := Some(psms)), None)
    else
      var best := cands[FirstMax(cands)];
      OcrPage(best.text, best.tokens, Some(best.consensus),
        best.strategy.(psmCandidates := Some(psms), consensusCandidates := Some(|cands|)), None)
  }

  /** What _ocr_page returns for the given psm candidates and strategies. */
  function OcrPageSpec(psms: seq<int>, strategies: seq<Preprocess>, tess: Tesseract): OcrPage {
    BestPage(WithConsensus(CandidatesOf(strategies, psms, tess), SimilarityRatio), psms)
  }

  /**
   * With no candidate the page is empty; otherwise it carries the text and
   * tokens of the first candidate whose (consensus, score) no other candidate
   * exceeds, that candidate's consensus as the pass similarity (no other
   * consensus is higher) and the number of candidates.
   */
  lemma BestPageWinner(cands: seq<Candidate>, psms: seq<int>)
    ensures cands == [] ==>
      BestPage(cands, psms) == OcrPage("", [], None, EmptyStrategy.(name := Some("none"), psmCandidates := Some(psms)), None)
    ensures cands != [] ==>
      var r := BestPage(cands, psms);
      r.passSimilarity.Some? && r.strategy.consensusCandidates == Some(|cands|)
      && r.strategy.psmCandidates == Some(psms)
      && (forall c :: c in cands ==> c.consensus <= r.passSimilarity.value)
      && exists w :: 0 <= w < |cands| && r.text == cands[w].text && r.tokens == cands[w].tokens
           && r.passSimilarity == Some(cands[w].consensus)
           && (forall j :: 0 <= j < |cands| ==> !CandLt(cands[w], cands[j]))
           && (forall j :: 0 <= j < w ==> CandLt(cands[j], cands[w]))
  {
    if cands != [] {
      var w := FirstMax(cands);
      forall c | c in cands
        ensures c.consensus <= cands[w].consensus
      {
        var j :| 0 <= j < |cands| && cands[j] == c;
        assert !CandLt(cands[w], cands[j]);
      }
    }
  }

  /** _ocr_page considers one candidate per strategy and psm: no page text without both. */
  lemma OcrPageCandidates(psms: seq<int>, strategies: seq<Preprocess>, tess: Tesseract)
    ensures |strategies| * |psms| == 0 <==> OcrPageSpec(psms, strategies, tess).passSimilarity.None?
    ensures |strategies| * |psms| > 0 ==> OcrPageSpec(psms, strategies, tess).strategy.consensusCandidates == Some(|strategies| * |psms|)
  {
    CandidatesCount(strategies, psms, tess);
    BestPageWinner(WithConsensus(CandidatesOf(strategies, psms, tess), SimilarityRatio), psms);
  }

  /** The winner's strategy is one of the strategies given, with one of the psm candidates. */
  lemma OcrPageStrategy(psms: seq<int>, strategies: seq<Preprocess>, tess: Tesseract)
    requires |strategies| * |psms| > 0
    ensures exists i, j ::
              0 <= i < |strategies| && 0 <= j < |psms| &&
              OcrPageSpec(psms, strategies, tess).strategy ==
              StrategyOf(strategies[i], psms[j]).(psmCandidates := Some(psms), consensusCandidates := Some(|strategies| * |psms|))
  {
    var all := CandidatesOf(strategies, psms, tess);
    CandidatesCount(strategies, psms, tess);
    CandidatesStrategies(strategies, psms, tess);
    var cands := WithConsensus(all, SimilarityRatio);
    var w := FirstMax(cands);
    assert cands[w].strategy == all[w].strategy;
    assert AmongStrategies(all[w].strategy, strategies, psms);
    var i, j :| 0 <= i < |strategies| && 0 <= j < |psms| && all[w].strategy == StrategyOf(strategies[i], psms[j]);
  }

  /** A bound on every defined ratio bounds every similarity collected from them. */
  lemma {:induction false} DefinedOthersAtMost(ratios: seq<Option<real>>, i: nat, n: nat, hi: real)
    requires n <= |ratios|
    requires forall j :: 0 <= j < |ratios| && ratios[j].Some? ==> ratios[j].value <= hi
    ensures AllAtMost(DefinedOthers(ratios, i, n), hi)
  {
    if n > 0 {
      DefinedOthersAtMost(ratios, i, n - 1, hi);
    }
  }

  /** With similarity_ratio, a consensus similarity never exceeds 1.0. */
  lemma ConsensusAtMostOne(texts: seq<string>, i: nat)
    requires i < |texts|
    ensures Consensus(Similarities(texts, i, |texts|, SimilarityRatio)) <= 1.0
  {
    var ratios := RatiosOf(texts, i, SimilarityRatio);
    forall j | 0 <= j < |ratios| && ratios[j].Some?
      ensures ratios[j].value <= 1.0
    {
      assert ratios[j] == SimilarityRatio(texts[i], texts[j]);
    }
    DefinedOthersAtMost(ratios, i, |texts|, 1.0);
    var sims := Similarities(texts, i, |texts|, SimilarityRatio);
    if sims != [] {
      MeanAtMost(sims, 1.0);
    }
  }

  /** The pass similarity _ocr_page reports is at most 1.0. */
  lemma PassSimilarityAtMostOne(psms: seq<int>, strategies: seq<Preprocess>, tess: Tesseract)
    ensures OcrPageSpec(psms, strategies, tess).passSimilarity.Some? ==> OcrPageSpec(psms, strategies, tess).passSimilarity.value <= 1.0
  {
    var cands := WithConsensus(CandidatesOf(strategies, psms, tess), SimilarityRatio);
    if cands != [] {
      var w := FirstMax(cands);
      ConsensusAtMostOne(Texts(CandidatesOf(strategies, psms, tess)), w);
    }
  }

  /** One candidate of _ocr_page: OCR with the strategy and psm, then its text, tokens, score and strategy. */
  method MakeCandidate(p: Preprocess, psm: int, tess: Tesseract) returns (c: Candidate)
    ensures c == CandidateFor(p, psm, tess)
  {
    var tokens, texts, confs := ExtractTokens(tess(p, psm));
    var score := ScorePage(confs);
    c := Candidate(PageText(texts), tokens, score, StrategyOf(p, psm), 0.0);
  }

  /** Builds the candidate list of _ocr_page, strategy by strategy and psm by psm. */
  method BuildCandidates(psms: seq<int>, strategies: seq<Preprocess>, tess: Tesseract) returns (cands: seq<Candidate>)
    ensures cands == CandidatesOf(strategies, psms, tess)
  {
    cands := [];
    var si := 0;
    while si < |strategies|
      invariant 0 <= si <= |strategies|
      invariant cands == CandidatesOf(strategies[..si], psms, tess)
    {
      var row := BuildRow(strategies[si], psms, tess);
      assert strategies[..si + 1][..si] == strategies[..si];
      cands := cands + row;
      si := si + 1;
    }
    assert strategies[..si] == strategies;
  }

  /** The inner loop of _ocr_page: one strategy with every psm. */
  method BuildRow(p: Preprocess, psms: seq<int>, tess: Tesseract) returns (row: seq<Candidate>)
    ensures row == Row(p, psms, tess)
  {
    row := [];
    var pj := 0;
    while pj < |psms|
      invariant 0 <= pj <= |psms|
      invariant row == Row(p, psms[..pj], tess)
    {
      var c := MakeCandidate(p, psms[pj], tess);
      assert psms[..pj + 1][..pj] == psms[..pj];
      row := row + [c];
      pj := pj + 1;
    }
    assert psms[..pj] == psms;
  }

  /** One comparison of the consensus loop: the similarity to text j is added when j is another text and it is defined. */
  method CompareWith(texts: seq<string>, i: nat, j: nat, sim: Similarity, sims: seq<real>) returns (sims': seq<real>)
    requires i < |texts| && j < |texts|
    requires sims == Similarities(texts, i, j, sim)
    ensures sims' == Similarities(texts, i, j + 1, sim)
  {
    sims' := sims;
    if j != i {
      var ratio := sim(texts[i], texts[j]);
      if ratio.Some? {
        sims' := sims + [ratio.value];
      }
    }
  }

  /** The consensus of candidate i: the mean of its defined similarities to the others, or 1.0. */
  method ConsensusOf(texts: seq<string>, i: nat, sim: Similarity) returns (c: real)
    requires i < |texts|
    ensures c == Consensus(Similarities(texts, i, |texts|, sim))
  {
    var sims: seq<real> := [];
    var j := 0;
    while j < |texts|
      invariant 0 <= j <= |texts|
      invariant sims == Similarities(texts, i, j, sim)
    {
      sims := CompareWith(texts, i, j, sim, sims);
      j := j + 1;
    }
    c := if sims != [] then Mean(sims) else 1.0;
  }

  /** Sets each candidate's consensus similarity in place. */
  method SetConsensus(cands0: seq<Candidate>, sim: Similarity) returns (cands: seq<Candidate>)
    ensures cands == WithConsensus(cands0, sim)
  {
    cands := cands0;
    var i := 0;
    while i < |cands|
      invariant 0 <= i <= |cands| == |cands0|
      invariant Texts(cands) == Texts(cands0)
      invariant forall k :: 0 <= k < i ==> cands[k] == WithConsensus(cands0, sim)[k]
      invariant forall k :: i <= k < |cands| ==> cands[k] == cands0[k]
    {
      var c := ConsensusOf(Texts(cands), i, sim);
      cands := cands[i := cands[i].(consensus := c)];
      i := i + 1;
    }
  }

  /** _ocr_page: every strategy with every psm, consensus among the candidates, the best by (consensus, score). */
  method OcrPageEnsemble(psms: seq<int>, strategies: seq<Preprocess>, tess: Tesseract) returns (page: OcrPage)
    ensures page == OcrPageSpec(psms, strategies, tess)
  {
    var built := BuildCandidates(psms, strategies, tess);
    if built == [] {
      return OcrPage("", [], None, EmptyStrategy.(name := Some("none"), psmCandidates := Some(psms)), None);
    }
    var cands := SetConsensus(built, SimilarityRatio);
    var best := cands[FirstMax(cands)];
    page := OcrPage(best.text, best.tokens, Some(best.consensus),
      best.strategy.(psmCandidates := Some(psms), consensusCandidates := Some(|cands|)), None);
  }

  // ---------------------------------------------------------------- pages

  /**
   * A rendered page: the densities classify_layout measures, the bounding
   * rectangles of the table-grid contours, Tesseract's answer for each cell
   * rectangle (image_to_string with psm 7), and image_to_data for the page.
   */
  datatype PageImage = PageImage(
    lineDensity: real,
    inkDensity: real,
    edgeDensity: real,
    contourBoxes: seq<BBox>,
    cellOcr: BBox -> string,
    tesseract: Tesseract)

  function ImageLayout(img: PageImage): Layout {
    ClassifyLayout(img.lineDensity, img.inkDensity, img.edgeDensity)
  }

  /** The strategies of OCR_PREPROCESS_STRATEGIES named by the preset, in that tuple's order. */
  function SelectByName(ss: seq<Preprocess>, names: seq<string>): (r: seq<Preprocess>)
    ensures forall p :: p in r <==> p in ss && p.name in names
  {
    if ss == [] then []
    else (if ss[0].name in names then [ss[0]] else []) + SelectByName(ss[1..], names)
  }

  function SelectedPreprocess(layout: Layout): (r: seq<Preprocess>)
    ensures r != []
  {
    var sel := SelectByName(PreprocessStrategies, Preset(layout).preprocess);
    if sel == [] then PreprocessStrategies else sel
  }

  /** What _process_one_ocr_page returns for a page. */
  function ProcessSpec(img: PageImage): (r: OcrPage)
    ensures r.layout == Some(ImageLayout(img))
    ensures ImageLayout(img) == TableLayout ==> r.strategy.tableCells == Some(|ExtractTableCells(img.contourBoxes)|)
    ensures ImageLayout(img) == TableLayout && ExtractTableCells(img.contourBoxes) != [] ==>
      r.passSimilarity.None? && forall i :: 0 <= i < |r.tokens| ==> r.tokens[i].confidence == 0.0
  {
    var layout := ImageLayout(img);
    var preset := Preset(layout);
    var selected := SelectedPreprocess(layout);
    if layout == TableLayout then
      var boxes := ExtractTableCells(img.contourBoxes);
      if boxes != [] then
        OcrPage(TableText(TableRows(boxes, img.cellOcr)), CellTokens(boxes, img.cellOcr), None,
          EmptyStrategy.(tableCells := Some(|boxes|)), Some(layout))
      else
        var res := OcrPageSpec(preset.psm, selected, img.tesseract);
        res.(strategy := res.strategy.(tableCells := Some(|boxes|)), layout := Some(layout))
    else
      OcrPageSpec(preset.psm, selected, img.tesseract).(layout := Some(layout))
  }

  /** _process_one_ocr_page: classify the layout; OCR a table cell by cell, any other page with the ensemble. */
  method ProcessOnePage(img: PageImage) returns (page: OcrPage)
    ensures page == ProcessSpec(img)
  {
    var layout := ClassifyLayout(img.lineDensity, img.inkDensity, img.edgeDensity);
    var preset := Preset(layout);
    var selected := SelectedPreprocess(layout);
    if layout == TableLayout {
      var boxes := ExtractTableCells(img.contourBoxes);
      if boxes != [] {
        var text, tokens := OcrTableCells(boxes, img.cellOcr);
        page := OcrPage(text, tokens, None, EmptyStrategy.(tableCells := Some(|boxes|)), Some(layout));
      } else {
        var res := OcrPageEnsemble(preset.psm, selected, img.tesseract);
        page := res.(strategy := res.strategy.(tableCells := Some(|boxes|)), layout := Some(layout));
      }
    } else {
      var res := OcrPageEnsemble(preset.psm, selected, img.tesseract);
      page := res.(layout := Some(layout));
    }
  }

  /** The texts of the pages that have text, in page order. */
  function NonEmptyTexts(pages: seq<OcrPage>): seq<string> {
    NonEmptyOnly(seq(|pages|, i requires 0 <= i < |pages| => pages[i].text))
  }

  /**
   * extract_with_ocr: rendering failures become PdfProcessingError; page i
   * of the result (page_number i + 1) is the OCR of image i; the full text
   * joins the non-empty page texts with newlines.
   */
  method ExtractWithOcr(render: Result<seq<PageImage>, Failure>) returns (r: Result<(string, seq<OcrPage>), Failure>)
    ensures render.Err? ==> r == Err(Raised(ExtractionError(PdfProcessing, "OCR rendering failed: " + FailureMessage(render.error))))
    ensures render.Ok? ==> r.Ok? && |r.value.1| == |render.value| && r.value.1 == PagesSpec(render.value)
    ensures render.Ok? ==> forall i :: 0 <= i < |render.value| ==> r.value.1[i] == ProcessSpec(render.value[i])
    ensures render.Ok? ==> r.value.0 == Strip(Join(NonEmptyTexts(r.value.1), "\n"))
  {
    if render.Err? {
      return Err(Raised(ExtractionError(PdfProcessing, "OCR rendering failed: " + FailureMessage(render.error))));
    }
    var pages := OcrPages(render.value);
    forall i | 0 <= i < |render.value|
      ensures pages[i] == ProcessSpec(render.value[i])
    {
      PagesSpecAt(render.value, i);
    }
    r := Ok((Strip(Join(NonEmptyTexts(pages), "\n")), pages));
  }

  /** The OCR pages of the images, in order. */
  function PagesSpec(images: seq<PageImage>): (r: seq<OcrPage>)
    ensures |r| == |images|
  {
    if images == [] then [] else PagesSpec(images[..|images| - 1]) + [ProcessSpec(images[|images| - 1])]
  }

  /** Page i of the result is the OCR of image i. */
  lemma {:induction false} PagesSpecAt(images: seq<PageImage>, i: nat)
    requires i < |images|
    ensures PagesSpec(images)[i] == ProcessSpec(images[i])
  {
    if i < |images| - 1 {
      PagesSpecAt(images[..|images| - 1], i);
    }
  }

  /** The page loop of extract_with_ocr: every image processed, in order. */
  method OcrPages(images: seq<PageImage>) returns (pages: seq<OcrPage>)
    ensures pages == PagesSpec(images)
  {
    pages := [];
    var i := 0;
    while i < |images|
      invariant 0 <= i <= |images|
      invariant pages == PagesSpec(images[..i])
    {
      var page := ProcessOnePage(images[i]);
      assert images[..i + 1][..i] == images[..i];
      pages := pages + [page];
      i := i + 1;
    }
    assert images[..i] == images;
  }

  /** _default_ocr_workers: OCR_WORKERS clamped into [1, 32], 4 when unset or not an integer. */
  function DefaultOcrWorkers(env: Option<string>): (r: int)
    ensures 1 <= r <= 32
    ensures env.None? ==> r == 4
    ensures env.Some? && ParseInt(env.value).None? ==> r == 4
    ensures env.Some? && ParseInt(env.value).Some? && 1 <= ParseInt(env.value).value <= 32 ==> r == ParseInt(env.value).value
    ensures env.Some? && ParseInt(env.value).Some? && ParseInt(env.value).value > 32 ==> r == 32
    ensures env.Some? && ParseInt(env.value).Some? && ParseInt(env.value).value < 1 ==> r == 1
  {
    var raw := if env.Some? then env.value else "4";
    ParseIntToString(4);
    assert IntToString(4) == "4";
    match ParseInt(raw)
    case None => 4
    case Some(n) => if n > 32 then 32 else if n < 1 then 1 else n
  }

  // ---------------------------------------------------------------- rerun_page_ocr

  /** retry-{attempt + 1} */
  function RetryName(attempt: nat): string {
    "retry-" + NatToString(attempt + 1)
  }

  /** The single preprocessing strategy of retry attempt `attempt`. */
  function RetryPreprocess(attempt: nat): Preprocess {
    Preprocess(RetryName(attempt), RetryThresholds[attempt % 2], RetryOsd[attempt % 2], 5, (2, 200, 3), 2)
  }

  /** The retry settings depend on the parity of the attempt only, and consecutive attempts differ. */
  lemma RetryAlternates(attempt: nat)
    ensures RetryPreprocess(attempt + 2).threshold == RetryPreprocess(attempt).threshold
    ensures RetryPreprocess(attempt + 2).useOsd == RetryPreprocess(attempt).useOsd
    ensures RetryDpi[(attempt + 2) % 2] == RetryDpi[attempt % 2]
    ensures RetryPreprocess(attempt + 1).threshold != RetryPreprocess(attempt).threshold
    ensures RetryPreprocess(attempt + 1).useOsd != RetryPreprocess(attempt).useOsd
    ensures RetryDpi[(attempt + 1) % 2] != RetryDpi[attempt % 2]
  {
  }

  /** Distinct attempts carry distinct strategy names. */
  lemma {:induction false} RetryNamesDistinct(a1: nat, a2: nat)
    requires a1 != a2
    ensures RetryName(a1) != RetryName(a2)
  {
    NatToStringValue(a1 + 1);
    NatToStringValue(a2 + 1);
    assert RetryName(a1)[6..] == NatToString(a1 + 1);
    assert RetryName(a2)[6..] == NatToString(a2 + 1);
  }

  /** What rerun_page_ocr returns; render(page, dpi) stands for convert_from_path of that one page. */
  function RerunSpec(pageNumber: int, attempt: nat, render: (int, int) -> Result<seq<PageImage>, Failure>): (r: Result<OcrPage, Failure>)
    ensures render(pageNumber, RetryDpi[attempt % 2]).Err? ==> r == Err(render(pageNumber, RetryDpi[attempt % 2]).error)
    ensures r.Err? <==> render(pageNumber, RetryDpi[attempt % 2]).Err? || render(pageNumber, RetryDpi[attempt % 2]).value == []
    ensures r.Ok? ==>
      var img := render(pageNumber, RetryDpi[attempt % 2]).value[0];
      r.value.layout == Some(ImageLayout(img))
      && r.value.strategy.name == Some(RetryName(attempt))
      && r.value.strategy.threshold == Some(RetryThresholds[attempt % 2])
      && r.value.strategy.useOsd == Some(RetryOsd[attempt % 2])
      && r.value.strategy.dpi == Some(RetryDpi[attempt % 2])
      && r.value.strategy.attempt == Some(attempt + 1)
      && r.value.strategy.psmCandidates == Some(Preset(ImageLayout(img)).psm)
  {
    var dpi := RetryDpi[attempt % 2];
    var images := render(pageNumber, dpi);
    if images.Err? then Err(images.error)
    else if images.value == [] then
      Err(Raised(ExtractionError(PdfProcessing, "OCR retry failed to render page " + IntToString(pageNumber) + ".")))
    else
      var img := images.value[0];
      var layout := ImageLayout(img);
      var psms := Preset(layout).psm;
      var res := OcrPageSpec(psms, [RetryPreprocess(attempt)], img.tesseract);
      OcrPageStrategy(psms, [RetryPreprocess(attempt)], img.tesseract);
      Ok(res.(strategy := res.strategy.(dpi := Some(dpi), attempt := Some(attempt + 1)), layout := Some(layout)))
  }

  /** rerun_page_ocr: re-render the page at the retry dpi and OCR it with the retry strategy and the layout's psm list. */
  method RerunPageOcr(pageNumber: int, attempt: nat, render: (int, int) -> Result<seq<PageImage>, Failure>) returns (r: Result<OcrPage, Failure>)
    ensures r == RerunSpec(pageNumber, attempt, render)
  {
    var dpi := RetryDpi[attempt % 2];
    var strategies := [RetryPreprocess(attempt)];
    var images := render(pageNumber, dpi);
    if images.Err? {
      return Err(images.error);
    }
    if images.value == [] {
      return Err(Raised(ExtractionError(PdfProcessing, "OCR retry failed to render page " + IntToString(pageNumber) + ".")));
    }
    var layout := ImageLayout(images.value[0]);
    var res := OcrPageEnsemble(Preset(layout).psm, strategies, images.value[0].tesseract);
    r := Ok(res.(strategy := res.strategy.(dpi := Some(dpi), attempt := Some(attempt + 1)), layout := Some(layout)));
  }
}
