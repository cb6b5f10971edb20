/**
 * Native PDF text extraction (PyMuPDF): per-page text with its stripped
 * length, the joined full text, the "has enough text" test, and the
 * flattening of a page's layout dictionary (blocks, lines, spans) into a
 * list of positioned text and image entries.
 *
 * What the PDF library returns is an input: the text of each page, and
 * each page's block dictionaries.
 */
module PdfText {
  import opened Wrappers
  import opened Text
  import opened Schema

  // ---------------------------------------------------------------- extract_native_text

  /** {"page_number": n, "text": t, "char_count": c} */
  datatype NativePage = NativePage(pageNumber: int, text: string, charCount: int)

  /** The page list: page i (from 0) is numbered i + 1 and counts its stripped characters. */
  function NativePages(texts: seq<string>): (r: seq<NativePage>)
    ensures |r| == |texts|
  {
    seq(|texts|, i requires 0 <= i < |texts| => NativePage(i + 1, texts[i], |Strip(texts[i])|))
  }

  /** The stripped texts of the pages that are not blank, in page order. */
  function TextParts(texts: seq<string>): seq<string> {
    if texts == [] then []
    else
      var last := texts[|texts| - 1];
      TextParts(texts[..|texts| - 1]) + (if Strip(last) != [] then [Strip(last)] else [])
  }

  /** extract_native_text: one loop that records every page and collects its stripped text when non-blank. */
  method ExtractNativeText(texts: seq<string>) returns (fullText: string, pages: seq<NativePage>)
    ensures pages == NativePages(texts)
    ensures fullText == Join(TextParts(texts), "\n")
  {
    pages := [];
    var parts: seq<string> := [];
    var i := 0;
    while i < |texts|
      invariant 0 <= i <= |texts|
      invariant |pages| == i
      invariant forall j :: 0 <= j < i ==> pages[j] == NativePage(j + 1, texts[j], |Strip(texts[j])|)
      invariant parts == TextParts(texts[..i])
    {
      assert texts[..i + 1][..i] == texts[..i];
      var text := texts[i];
      pages := pages + [NativePage(i + 1, text, |Strip(text)|)];
      if Strip(text) != [] {
        parts := parts + [Strip(text)];
      }
      i := i + 1;
    }
    assert texts[..|texts|] == texts;
    fullText := Join(parts, "\n");
  }

  /**
   * Pages are numbered 1..n in document order; a page's character count is
   * at most its length and is zero exactly when the page is blank.
   */
  lemma NativePagesFacts(texts: seq<string>, i: int)
    requires 0 <= i < |texts|
    ensures NativePages(texts)[i].pageNumber == i + 1
    ensures NativePages(texts)[i].text == texts[i]
    ensures NativePages(texts)[i].charCount <= |texts[i]|
    ensures NativePages(texts)[i].charCount == 0 <==> IsBlank(texts[i])
  {
    StripFacts(texts[i]);
  }

  /** The parts joined into the full text are non-empty and stripped, one per non-blank page at most. */
  lemma {:induction false} TextPartsFacts(texts: seq<string>)
    ensures |TextParts(texts)| <= |texts|
    ensures forall k :: 0 <= k < |TextParts(texts)| ==> TextParts(texts)[k] != [] && IsStripped(TextParts(texts)[k])
    ensures (forall j :: 0 <= j < |texts| ==> IsBlank(texts[j])) ==> TextParts(texts) == []
  {
    if texts != [] {
      var init := texts[..|texts| - 1];
      var last := texts[|texts| - 1];
      TextPartsFacts(init);
      StripFacts(last);
      if forall j :: 0 <= j < |texts| ==> IsBlank(texts[j]) {
        assert forall j :: 0 <= j < |init| ==> init[j] == texts[j];
      }
    }
  }

  // ---------------------------------------------------------------- page_has_text

  const MinChars: int := 50

  /** page_has_text: enough characters to skip OCR; a page without a count has none. */
  function PageHasText(charCount: Option<int>, minChars: int): (b: bool)
    ensures charCount.None? ==> (b <==> minChars <= 0)
    ensures charCount.Some? ==> (b <==> charCount.value >= minChars)
  {
    (if charCount.Some? then charCount.value else 0) >= minChars
  }

  /** With the default threshold, a native page has text exactly when its stripped text has 50 characters. */
  lemma NativePageHasText(texts: seq<string>, i: int)
    requires 0 <= i < |texts|
    ensures PageHasText(Some(NativePages(texts)[i].charCount), MinChars) <==> |Strip(texts[i])| >= 50
  {
  }

  // ---------------------------------------------------------------- extract_page_dimensions

  /** What extract_page_dimensions returns: every page number 1..n mapped to its (width, height). */
  function DimensionsOf(sizes: seq<(real, real)>): map<int, (real, real)> {
    map n | 1 <= n <= |sizes| :: SizeOf(sizes, n)
  }

  /** The size of page n (1-based). */
  function SizeOf(sizes: seq<(real, real)>, n: int): (real, real)
    requires 1 <= n <= |sizes|
  {
    sizes[n - 1]
  }

  /** extract_page_dimensions: one entry per page, keyed by its 1-based number. */
  method ExtractPageDimensions(sizes: seq<(real, real)>) returns (dims: map<int, (real, real)>)
    ensures dims == DimensionsOf(sizes)
    ensures forall n :: n in dims <==> 1 <= n <= |sizes|
    ensures forall n :: 1 <= n <= |sizes| ==> dims[n] == sizes[n - 1]
  {
    dims := map[];
    var i := 0;
    while i < |sizes|
      invariant 0 <= i <= |sizes|
      invariant dims == DimensionsOf(sizes[..i])
      invariant forall n :: 1 <= n <= i ==> dims[n] == sizes[n - 1]
    {
      dims := dims[i + 1 := sizes[i]];
      i := i + 1;
      assert dims == DimensionsOf(sizes[..i]);
    }
    assert sizes[..|sizes|] == sizes;
  }

  // ---------------------------------------------------------------- extract_layout_blocks

  /** A PDF rectangle as (x0, y0, x1, y1). */
  datatype Quad = Quad(x0: real, y0: real, x1: real, y1: real)

  /** A span dictionary; keys that are absent are None. */
  datatype RawSpan = RawSpan(bbox: Option<Quad>, text: Option<string>, font: Option<string>, size: Option<real>, color: Option<int>)

  datatype RawLine = RawLine(spans: seq<RawSpan>)

  /** A block dictionary: type (absent = 0), bbox (absent = all zeros) and its lines. */
  datatype RawBlock = RawBlock(kind: Option<int>, bbox: Option<Quad>, lines: seq<RawLine>)

  datatype BlockType = TextBlock | ImageBlock

  /** One entry of a page's layout list. */
  datatype LayoutBlock = LayoutBlock(kind: BlockType, bbox: Rect, text: Option<string>, font: Option<string>, size: Option<real>, color: Option<int>)

  /** (x0, y0, x1, y1) to x, y, width, height. */
  function RectOf(q: Quad): (r: Rect)
    ensures r.x + r.w == q.x1 && r.y + r.h == q.y1
    ensures r.x == q.x0 && r.y == q.y0
  {
    Rect(q.x0, q.y0, q.x1 - q.x0, q.y1 - q.y0)
  }

  const ZeroQuad: Quad := Quad(0.0, 0.0, 0.0, 0.0)

  function BlockQuad(b: RawBlock): Quad { if b.bbox.Some? then b.bbox.value else ZeroQuad }

  /** The entry of one span, or none when its text is blank. */
  function SpanEntry(s: RawSpan, blockQuad: Quad): seq<LayoutBlock> {
    var text := if s.text.Some? then s.text.value else "";
    var quad := if s.bbox.Some? then s.bbox.value else blockQuad;
    if Strip(text) == [] then []
    else [LayoutBlock(TextBlock, RectOf(quad), Some(text), s.font, Some(if s.size.Some? then s.size.value else 0.0), s.color)]
  }

  /** The entries of a line's spans, in order. */
  function SpanEntries(spans: seq<RawSpan>, blockQuad: Quad): seq<LayoutBlock> {
    if spans == [] then []
    else SpanEntries(spans[..|spans| - 1], blockQuad) + SpanEntry(spans[|spans| - 1], blockQuad)
  }

  /** The entries of a text block's lines, in order. */
  function LineEntries(lines: seq<RawLine>, blockQuad: Quad): seq<LayoutBlock> {
    if lines == [] then []
    else LineEntries(lines[..|lines| - 1], blockQuad) + SpanEntries(lines[|lines| - 1].spans, blockQuad)
  }

  /** An image block gives one image entry; any other block gives its spans' entries. */
  function BlockEntries(b: RawBlock): seq<LayoutBlock> {
    if b.kind == Some(1) then [LayoutBlock(ImageBlock, RectOf(BlockQuad(b)), None, None, None, None)]
    else LineEntries(b.lines, BlockQuad(b))
  }

  /** A page's entries: its blocks', in order. */
  function PageEntries(blocks: seq<RawBlock>): seq<LayoutBlock> {
    if blocks == [] then []
    else PageEntries(blocks[..|blocks| - 1]) + BlockEntries(blocks[|blocks| - 1])
  }

  /** Entries carry text exactly when they are text entries, and that text is never blank. */
  predicate WellFormed(e: LayoutBlock) {
    && (e.kind == ImageBlock ==> e.text.None? && e.font.None? && e.size.None? && e.color.None?)
    && (e.kind == TextBlock ==> e.text.Some? && !IsBlank(e.text.value) && e.size.Some?)
  }

  predicate AllWellFormed(es: seq<LayoutBlock>) {
    forall k :: 0 <= k < |es| ==> WellFormed(es[k])
  }

  lemma AllWellFormedConcat(a: seq<LayoutBlock>, b: seq<LayoutBlock>)
    requires AllWellFormed(a) && AllWellFormed(b)
    ensures AllWellFormed(a + b)
  {
    forall k | 0 <= k < |a + b| ensures WellFormed((a + b)[k]) {
      if k >= |a| {
        assert (a + b)[k] == b[k - |a|];
      }
    }
  }

  lemma {:induction false} SpanEntriesWellFormed(spans: seq<RawSpan>, blockQuad: Quad)
    ensures AllWellFormed(SpanEntries(spans, blockQuad))
  {
    if spans != [] {
      SpanEntriesWellFormed(spans[..|spans| - 1], blockQuad);
      var s := spans[|spans| - 1];
      StripFacts(if s.text.Some? then s.text.value else "");
      AllWellFormedConcat(SpanEntries(spans[..|spans| - 1], blockQuad), SpanEntry(s, blockQuad));
    }
  }

  lemma {:induction false} LineEntriesWellFormed(lines: seq<RawLine>, blockQuad: Quad)
    ensures AllWellFormed(LineEntries(lines, blockQuad))
  {
    if lines != [] {
      LineEntriesWellFormed(lines[..|lines| - 1], blockQuad);
      SpanEntriesWellFormed(lines[|lines| - 1].spans, blockQuad);
      AllWellFormedConcat(LineEntries(lines[..|lines| - 1], blockQuad), SpanEntries(lines[|lines| - 1].spans, blockQuad));
    }
  }

  /**
   * Every entry of a page is well formed: image entries carry no text, font,
   * size or colour, and text entries carry non-blank text.
   */
  lemma {:induction false} PageEntriesWellFormed(blocks: seq<RawBlock>)
    ensures AllWellFormed(PageEntries(blocks))
  {
    if blocks != [] {
      PageEntriesWellFormed(blocks[..|blocks| - 1]);
      var b := blocks[|blocks| - 1];
      if b.kind != Some(1) {
        LineEntriesWellFormed(b.lines, BlockQuad(b));
      }
      AllWellFormedConcat(PageEntries(blocks[..|blocks| - 1]), BlockEntries(b));
    }
  }

  /** An image block contributes exactly one entry, at the block's rectangle. */
  lemma ImageBlockEntry(b: RawBlock)
    requires b.kind == Some(1)
    ensures |BlockEntries(b)| == 1 && BlockEntries(b)[0].kind == ImageBlock
    ensures BlockEntries(b)[0].bbox.x + BlockEntries(b)[0].bbox.w == BlockQuad(b).x1
  {
  }

  /** Whether a page is processed: every page when no list is given, else the listed ones. */
  predicate Requested(pageNumbers: Option<seq<int>>, n: int) {
    pageNumbers.None? || n in pageNumbers.value
  }

  /** The spans of one line, flattened. */
  method FlattenSpans(spans: seq<RawSpan>, blockQuad: Quad) returns (out: seq<LayoutBlock>)
    ensures out == SpanEntries(spans, blockQuad)
  {
    out := [];
    var k := 0;
    while k < |spans|
      invariant 0 <= k <= |spans|
      invariant out == SpanEntries(spans[..k], blockQuad)
    {
      assert spans[..k + 1][..k] == spans[..k];
      var span := spans[k];
      var quad := if span.bbox.Some? then span.bbox.value else blockQuad;
      var text := if span.text.Some? then span.text.value else "";
      if Strip(text) != [] {
        out := out + [LayoutBlock(TextBlock, RectOf(quad), Some(text), span.font,
                                  Some(if span.size.Some? then span.size.value else 0.0), span.color)];
      }
      k := k + 1;
    }
    assert spans[..|spans|] == spans;
  }

  /** The lines of one text block, flattened. */
  method FlattenLines(lines: seq<RawLine>, quad: Quad) returns (out: seq<LayoutBlock>)
    ensures out == LineEntries(lines, quad)
  {
    out := [];
    var l := 0;
    while l < |lines|
      invariant 0 <= l <= |lines|
      invariant out == LineEntries(lines[..l], quad)
    {
      assert lines[..l + 1][..l] == lines[..l];
      var spans := FlattenSpans(lines[l].spans, quad);
      out := out + spans;
      l := l + 1;
    }
    assert lines[..|lines|] == lines;
  }

  /** The blocks of one page, flattened: an image entry per image block, the non-blank spans otherwise. */
  method FlattenBlocks(blocks: seq<RawBlock>) returns (out: seq<LayoutBlock>)
    ensures out == PageEntries(blocks)
  {
    out := [];
    for b := 0 to |blocks|
      invariant out == PageEntries(blocks[..b])
    {
      assert blocks[..b + 1][..b] == blocks[..b];
      var entries := FlattenBlock(blocks[b]);
      out := out + entries;
    }
    assert blocks[..|blocks|] == blocks;
  }

  /** One block: an image entry for an image block, its lines' spans otherwise. */
  method FlattenBlock(block: RawBlock) returns (entries: seq<LayoutBlock>)
    ensures entries == BlockEntries(block)
  {
    var quad := BlockQuad(block);
    if block.kind == Some(1) {
      entries := [LayoutBlock(ImageBlock, RectOf(quad), None, None, None, None)];
    } else {
      entries := FlattenLines(block.lines, quad);
    }
  }

  /** What extract_layout_blocks returns: the requested pages, each with its entries. */
  function LayoutOf(pages: seq<seq<RawBlock>>, pageNumbers: Option<seq<int>>): map<int, seq<LayoutBlock>> {
    map n | 1 <= n <= |pages| && Requested(pageNumbers, n) :: PageEntries(pages[n - 1])
  }

  /**
   * extract_layout_blocks: only requested pages are keys, every requested
   * page of the document is a key even without blocks, and each maps to its
   * flattened entries.
   */
  method ExtractLayoutBlocks(pages: seq<seq<RawBlock>>, pageNumbers: Option<seq<int>>)
    returns (result: map<int, seq<LayoutBlock>>)
    ensures result == LayoutOf(pages, pageNumbers)
    ensures forall n :: n in result <==> 1 <= n <= |pages| && Requested(pageNumbers, n)
    ensures forall n :: n in result ==> result[n] == PageEntries(pages[n - 1]) && AllWellFormed(result[n])
  {
    result := map[];
    var i := 0;
    while i < |pages|
      invariant 0 <= i <= |pages|
      invariant forall n :: n in result <==> 1 <= n <= i && Requested(pageNumbers, n)
      invariant forall n :: n in result ==> result[n] == PageEntries(pages[n - 1])
    {
      var pageNum := i + 1;
      if Requested(pageNumbers, pageNum) {
        var blocks := FlattenBlocks(pages[i]);
        result := result[pageNum := blocks];
      }
      i := i + 1;
    }
    forall n | n in result ensures AllWellFormed(result[n]) {
      PageEntriesWellFormed(pages[n - 1]);
    }
  }
}
