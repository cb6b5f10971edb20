/**
 * The PaddleOCR provider: the conversion of the engine's detected lines into
 * tokens (the four-point polygon becomes an axis-aligned bbox, the
 * confidence is scaled to 0-100) and page text, in the same shape as the
 * Tesseract path; and the keying of a run over several page images.
 *
 * The engine is an input: whether paddleocr imports, and per page either
 * the lines it detected or None when it (or the import of its model)
 * raised.
 */
module OcrPaddle {
  import opened Wrappers
  import opened Text
  import Schema

  type Point = (real, real)

  /** One detected line: fewer than two parts, or the polygon and (text, confidence) when that has two items. */
  datatype RawLine = Short | Line(box: seq<Point>, info: Option<(string, real)>)

  /** The page dictionary: text, tokens, pass_similarity and layout. */
  datatype OcrResult = OcrResult(text: string, tokens: seq<Schema.Token>, passSimilarity: Option<real>,
                                 layout: Option<Schema.Layout>)

  /** An entry of ocr_pages: the page dictionary with its page_number. */
  datatype PageEntry = PageEntry(pageNumber: int, result: OcrResult)

  const EmptyResult: OcrResult := OcrResult("", [], None, None)

  /** int(x) on a float: truncation toward zero. */
  function Trunc(x: real): (r: int)
    ensures x >= 0.0 ==> 0 <= r && r as real <= x < r as real + 1.0
    ensures x < 0.0 ==> r <= 0 && r as real - 1.0 < x <= r as real
  {
    if x >= 0.0 then x.Floor else -((-x).Floor)
  }

  function MinOf(xs: seq<real>): (m: real)
    requires xs != []
    ensures m in xs && forall i :: 0 <= i < |xs| ==> m <= xs[i]
  {
    if |xs| == 1 then xs[0]
    else
      var rest := MinOf(xs[1..]);
      assert forall i :: 1 <= i < |xs| ==> xs[i] == xs[1..][i - 1];
      if xs[0] <= rest then xs[0] else rest
  }

  function MaxOf(xs: seq<real>): (m: real)
    requires xs != []
    ensures m in xs && forall i :: 0 <= i < |xs| ==> xs[i] <= m
  {
    if |xs| == 1 then xs[0]
    else
      var rest := MaxOf(xs[1..]);
      assert forall i :: 1 <= i < |xs| ==> xs[i] == xs[1..][i - 1];
      if xs[0] >= rest then xs[0] else rest
  }

  function Xs(box: seq<Point>): (r: seq<real>)
    ensures |r| == |box| && forall i :: 0 <= i < |box| ==> r[i] == box[i].0
  {
    seq(|box|, i requires 0 <= i < |box| => box[i].0)
  }

  function Ys(box: seq<Point>): (r: seq<real>)
    ensures |r| == |box| && forall i :: 0 <= i < |box| ==> r[i] == box[i].1
  {
    seq(|box|, i requires 0 <= i < |box| => box[i].1)
  }

  /**
   * The polygon's axis-aligned bbox: the corner is the truncated minimum,
   * the size the truncated extent, so width and height are never negative
   * and the rectangle covers every point up to truncation.
   */
  function BBoxOf(box: seq<Point>): (b: Schema.BBox)
    requires box != []
    ensures b.w >= 0 && b.h >= 0
    ensures forall i :: 0 <= i < |box| ==>
      (b.x as real - 1.0 < box[i].0 < b.x as real + b.w as real + 2.0)
      && (b.y as real - 1.0 < box[i].1 < b.y as real + b.h as real + 2.0)
  {
    var xMin, xMax := MinOf(Xs(box)), MaxOf(Xs(box));
    var yMin, yMax := MinOf(Ys(box)), MaxOf(Ys(box));
    Schema.BBox(Trunc(xMin), Trunc(yMin), Trunc(xMax - xMin), Trunc(yMax - yMin))
  }

  /** A line becomes a token when it has two parts and its text info has two items. */
  predicate Kept(line: RawLine) { line.Line? && line.info.Some? }

  function TokenOf(line: RawLine): (t: Schema.Token)
    requires Kept(line) && line.box != []
    ensures t.text == line.info.value.0 && t.confidence == line.info.value.1 * 100.0
  {
    Schema.Token(line.info.value.0, BBoxOf(line.box), line.info.value.1 * 100.0)
  }

  /** The tokens of the lines, or None when a kept line has no points (min() of an empty list raises). */
  function Converted(lines: seq<RawLine>): Option<seq<Schema.Token>> {
    if lines == [] then Some([])
    else
      var prior := Converted(lines[..|lines| - 1]);
      var line := lines[|lines| - 1];
      if prior.None? || !Kept(line) then prior
      else if line.box == [] then None
      else Some(prior.value + [TokenOf(line)])
  }

  /** The kept lines, in order: the reference the conversion is checked against. */
  function KeptLines(lines: seq<RawLine>): (r: seq<RawLine>)
    ensures |r| <= |lines|
    ensures forall i :: 0 <= i < |r| ==> Kept(r[i])
  {
    if lines == [] then []
    else
      var prior := KeptLines(lines[..|lines| - 1]);
      if Kept(lines[|lines| - 1]) then prior + [lines[|lines| - 1]] else prior
  }

  /** Some line has no points. */
  predicate SomeEmptyBox(kept: seq<RawLine>) {
    exists i :: 0 <= i < |kept| && kept[i].Line? && kept[i].box == []
  }

  /** One token per line, in order, each converted from its line. */
  predicate TokensOf(kept: seq<RawLine>, ts: seq<Schema.Token>) {
    |ts| == |kept| && forall i :: 0 <= i < |kept| ==> Kept(kept[i]) && kept[i].box != [] && ts[i] == TokenOf(kept[i])
  }

  /**
   * The conversion raises exactly when some kept line has an empty polygon;
   * otherwise it gives one token per kept line, in order.
   */
  lemma {:induction false} ConvertedFacts(lines: seq<RawLine>)
    ensures Converted(lines).None? <==> SomeEmptyBox(KeptLines(lines))
    ensures Converted(lines).Some? ==> TokensOf(KeptLines(lines), Converted(lines).value)
  {
    if lines != [] {
      var init := lines[..|lines| - 1];
      ConvertedFacts(init);
      var line := lines[|lines| - 1];
      if Kept(line) {
        ConvertedStep(KeptLines(init), Converted(init), line);
      }
    }
  }

  /** One more kept line: the facts carry over. */
  lemma ConvertedStep(kept0: seq<RawLine>, prior: Option<seq<Schema.Token>>, line: RawLine)
    requires Kept(line) && forall i :: 0 <= i < |kept0| ==> Kept(kept0[i])
    requires prior.None? <==> SomeEmptyBox(kept0)
    requires prior.Some? ==> TokensOf(kept0, prior.value)
    ensures var next := if prior.None? then None else if line.box == [] then None else Some(prior.value + [TokenOf(line)]);
      && (next.None? <==> SomeEmptyBox(kept0 + [line]))
      && (next.Some? ==> TokensOf(kept0 + [line], next.value))
  {
    if prior.None? {
      EmptyBoxStays(kept0, line);
    } else if line.box == [] {
      assert (kept0 + [line])[|kept0|] == line;
    } else {
      TokensStep(kept0, prior.value, line);
    }
  }

  lemma EmptyBoxStays(kept0: seq<RawLine>, line: RawLine)
    requires SomeEmptyBox(kept0)
    ensures SomeEmptyBox(kept0 + [line])
  {
    var i :| 0 <= i < |kept0| && kept0[i].Line? && kept0[i].box == [];
    assert (kept0 + [line])[i] == kept0[i];
  }

  lemma TokensStep(kept0: seq<RawLine>, ts: seq<Schema.Token>, line: RawLine)
    requires Kept(line) && line.box != [] && forall i :: 0 <= i < |kept0| ==> Kept(kept0[i])
    requires !SomeEmptyBox(kept0) && TokensOf(kept0, ts)
    ensures !SomeEmptyBox(kept0 + [line]) && TokensOf(kept0 + [line], ts + [TokenOf(line)])
  {
    var kept := kept0 + [line];
    var next := ts + [TokenOf(line)];
    assert forall i :: 0 <= i < |kept0| ==> kept[i] == kept0[i] && next[i] == ts[i];
    assert kept[|kept0|] == line && next[|ts|] == TokenOf(line);
  }

  /** What ocr_page gives: None when it raises. */
  function PageResult(available: bool, output: Option<seq<RawLine>>): Option<OcrResult> {
    if !available then Some(EmptyResult)
    else if output.None? then None
    else
      match Converted(output.value)
      case None => None
      case Some(ts) => Some(OcrResult(Join(Schema.TokenTexts(ts), "\n"), ts, Some(1.0), Some(Schema.TextLayout)))
  }

  /** ocr_page: the lines in order, one token and one text line per kept line. */
  method OcrPage(available: bool, output: Option<seq<RawLine>>) returns (r: Option<OcrResult>)
    ensures r == PageResult(available, output)
  {
    if !available {
      return Some(EmptyResult);
    }
    if output.None? {
      return None;
    }
    var lines := output.value;
    var tokens: seq<Schema.Token> := [];
    var textParts: seq<string> := [];
    for k := 0 to |lines|
      invariant Converted(lines[..k]) == Some(tokens)
      invariant textParts == Schema.TokenTexts(tokens)
    {
      ConvertedNext(lines, k);
      var ok: bool;
      ok, tokens, textParts := AddLine(tokens, textParts, lines[k]);
      if !ok {
        NoneStays(lines, k + 1);
        return None;
      }
    }
    assert lines[..|lines|] == lines;
    return Some(OcrResult(Join(textParts, "\n"), tokens, Some(1.0), Some(Schema.TextLayout)));
  }

  /** One line of the loop: a kept line adds its token and its text, or raises when it has no points. */
  method AddLine(tokens: seq<Schema.Token>, textParts: seq<string>, line: RawLine)
    returns (ok: bool, tokens': seq<Schema.Token>, textParts': seq<string>)
    requires textParts == Schema.TokenTexts(tokens)
    ensures ok <==> !(Kept(line) && line.box == [])
    ensures ok ==> tokens' == (if Kept(line) then tokens + [TokenOf(line)] else tokens)
    ensures ok ==> textParts' == Schema.TokenTexts(tokens')
  {
    tokens', textParts' := tokens, textParts;
    ok := true;
    if line.Line? && line.info.Some? {
      if line.box == [] {
        ok := false;
        return;
      }
      var token := TokenOf(line);
      Schema.TokenListsAppend(tokens, token);
      tokens' := tokens + [token];
      textParts' := textParts + [token.text];
    }
  }

  /** One more line of the prefix. */
  lemma ConvertedNext(lines: seq<RawLine>, k: nat)
    requires k < |lines|
    ensures var prior := Converted(lines[..k]);
      var line := lines[k];
      Converted(lines[..k + 1])
        == if prior.None? || !Kept(line) then prior else if line.box == [] then None else Some(prior.value + [TokenOf(line)])
  {
    assert lines[..k + 1][..k] == lines[..k];
  }

  /** Once a prefix raises, the whole list raises. */
  lemma {:induction false} NoneStays(lines: seq<RawLine>, k: nat)
    requires k <= |lines| && Converted(lines[..k]).None?
    ensures Converted(lines).None?
    decreases |lines| - k
  {
    if k < |lines| {
      assert lines[..k + 1][..k] == lines[..k];
      NoneStays(lines, k + 1);
    } else {
      assert lines[..k] == lines;
    }
  }

  /**
   * On success the page carries pass_similarity 1.0 and layout "text", and
   * its text, split on newlines, gives the token texts back one per line
   * when no token text holds a newline.
   */
  lemma PageResultText(available: bool, output: Option<seq<RawLine>>)
    requires available && PageResult(available, output).Some?
    ensures var r := PageResult(available, output).value;
      && r.passSimilarity == Some(1.0) && r.layout == Some(Schema.TextLayout)
      && (r.tokens != [] && (forall i :: 0 <= i < |r.tokens| ==> '\n' !in r.tokens[i].text) ==>
            SplitOn(r.text, '\n') == Schema.TokenTexts(r.tokens))
  {
    var r := PageResult(available, output).value;
    if r.tokens != [] && (forall i :: 0 <= i < |r.tokens| ==> '\n' !in r.tokens[i].text) {
      SplitOnJoin(Schema.TokenTexts(r.tokens), '\n');
    }
  }

  /** The entry of one page; a page whose OCR raised gets the empty result. */
  function EntryOf(pageNum: int, available: bool, output: Option<seq<RawLine>>): (e: PageEntry)
    ensures e.pageNumber == pageNum
    ensures PageResult(available, output).None? ==> e.result == EmptyResult
    ensures PageResult(available, output).Some? ==> e.result == PageResult(available, output).value
  {
    var r := PageResult(available, output);
    PageEntry(pageNum, if r.Some? then r.value else EmptyResult)
  }

  /**
   * ocr_pages: one entry per image, keyed start_page + i, whose page_number
   * is its key.
   */
  method OcrPages(available: bool, outputs: seq<Option<seq<RawLine>>>, startPage: int)
    returns (results: map<int, PageEntry>)
    ensures forall p :: p in results <==> startPage <= p < startPage + |outputs|
    ensures forall i :: 0 <= i < |outputs| ==> results[startPage + i] == EntryOf(startPage + i, available, outputs[i])
    ensures forall p :: p in results ==> results[p].pageNumber == p
  {
    results := map[];
    var i := 0;
    while i < |outputs|
      invariant 0 <= i <= |outputs|
      invariant forall p :: p in results <==> startPage <= p < startPage + i
      invariant forall j :: 0 <= j < i ==> results[startPage + j] == EntryOf(startPage + j, available, outputs[j])
    {
      var pageNum := startPage + i;
      var r := OcrPage(available, outputs[i]);
      if r.Some? {
        results := results[pageNum := PageEntry(pageNum, r.value)];
      } else {
        results := results[pageNum := PageEntry(pageNum, EmptyResult)];
      }
      i := i + 1;
    }
    forall p | p in results ensures results[p].pageNumber == p {
      assert results[startPage + (p - startPage)] == EntryOf(p, available, outputs[p - startPage]);
    }
  }
}
