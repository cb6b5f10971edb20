/**
 * HTML reconstruction of an extraction result: CSS colours from PDF sRGB
 * integers, HTML escaping, page-container sizing, and the choice of what
 * each page shows (positioned text spans, image placeholders, embedded
 * images, or the page text as a fallback).
 *
 * The model produces the document's structure: each page's container size
 * and the list of elements it holds, with their escaped text and scaled
 * geometry. Writing numbers out as text and the fixed style sheet are not
 * modelled.
 */
module Reconstruct {
  import opened Wrappers

  // ---------------------------------------------------------------- _css_color

  const HexDigits: string := "0123456789abcdef"

  function HexDigit(d: int): (c: char)
    requires 0 <= d < 16
  {
    HexDigits[d]
  }

  /** The value of a lower-case hex digit; anything else counts as 0. */
  function HexValue(c: char): (d: int)
    ensures 0 <= d < 16
  {
    if '0' <= c <= '9' then c as int - '0' as int
    else if 'a' <= c <= 'f' then c as int - 'a' as int + 10
    else 0
  }

  /** The value of a string of hex digits, most significant first. */
  function HexNumber(s: string): int {
    if s == [] then 0 else HexNumber(s[..|s| - 1]) * 16 + HexValue(s[|s| - 1])
  }

  /** {v:02x} for a byte. */
  function Hex2(v: int): (s: string)
    requires 0 <= v < 256
  {
    [HexDigit(v / 16), HexDigit(v % 16)]
  }

  /**
   * _css_color: None or 0 give "#000"; any other integer gives "#rrggbb"
   * from bits 16-23, 8-15 and 0-7 (Python's shifts floor, so a negative
   * integer is read in two's complement).
   */
  function CssColor(srgb: Option<int>): (s: string)
    ensures srgb.None? || srgb == Some(0) ==> s == "#000"
    ensures srgb.Some? && srgb.value != 0 ==> |s| == 7 && s[0] == '#'
  {
    if srgb.None? || srgb.value == 0 then "#000"
    else
      var c := srgb.value;
      "#" + Hex2((c / 0x10000) % 0x100) + Hex2((c / 0x100) % 0x100) + Hex2(c % 0x100)
  }

  lemma HexDigitValue(d: int)
    requires 0 <= d < 16
    ensures HexValue(HexDigit(d)) == d
  {
    assert HexDigits == ['0', '1', '2', '3', '4', '5', '6', '7', '8', '9', 'a', 'b', 'c', 'd', 'e', 'f'];
  }

  lemma Hex2Value(v: int)
    requires 0 <= v < 256
    ensures HexNumber(Hex2(v)) == v
  {
    HexDigitValue(v / 16);
    HexDigitValue(v % 16);
    assert Hex2(v)[..1] == [HexDigit(v / 16)];
    assert HexNumber([HexDigit(v / 16)]) == HexValue(HexDigit(v / 16)) by {
      assert [HexDigit(v / 16)][..0] == [];
    }
  }

  lemma HexNumberAppend2(s: string, v: int)
    requires 0 <= v < 256
    ensures HexNumber(s + Hex2(v)) == HexNumber(s) * 256 + v
  {
    var t := s + Hex2(v);
    assert t[..|t| - 1] == s + [HexDigit(v / 16)];
    assert (s + [HexDigit(v / 16)])[..|s|] == s;
    HexDigitValue(v / 16);
    HexDigitValue(v % 16);
  }

  /**
   * The colour round-trips: reading the six digits of a non-zero colour
   * back as a hex number gives the integer's low 24 bits.
   */
  lemma CssColorValue(c: int)
    requires c != 0
    ensures HexNumber(CssColor(Some(c))[1..]) == c % 0x1000000
  {
    var r, g, b := (c / 0x10000) % 0x100, (c / 0x100) % 0x100, c % 0x100;
    assert CssColor(Some(c))[1..] == Hex2(r) + Hex2(g) + Hex2(b);
    Hex2Value(r);
    HexNumberAppend2(Hex2(r), g);
    HexNumberAppend2(Hex2(r) + Hex2(g), b);
    Low16(c);
    Low24(c);
  }

  lemma Low16(c: int)
    ensures c % 0x10000 == ((c / 0x100) % 0x100) * 0x100 + c % 0x100
  {
  }

  lemma Low24(c: int)
    ensures c % 0x1000000 == ((c / 0x10000) % 0x100) * 0x10000 + c % 0x10000
  {
  }

  // ---------------------------------------------------------------- html.escape

  /** html.escape with quote=True, one character. */
  function EscapeChar(c: char): string {
    if c == '&' then "&amp;"
    else if c == '<' then "&lt;"
    else if c == '>' then "&gt;"
    else if c == '"' then "&quot;"
    else if c == '\'' then "&#x27;"
    else [c]
  }

  function Escape(s: string): string {
    if s == [] then [] else EscapeChar(s[0]) + Escape(s[1..])
  }

  predicate Markup(c: char) { c == '<' || c == '>' || c == '"' || c == '\'' }

  /** Escaped text holds no markup character. */
  lemma {:induction false} EscapeNoMarkup(s: string)
    ensures forall i :: 0 <= i < |Escape(s)| ==> !Markup(Escape(s)[i])
  {
    if s != [] {
      EscapeNoMarkup(s[1..]);
      var e, rest := EscapeChar(s[0]), Escape(s[1..]);
      forall i | 0 <= i < |e + rest| ensures !Markup((e + rest)[i]) {
        if i >= |e| {
          assert (e + rest)[i] == rest[i - |e|];
        }
      }
    }
  }

  /** Reading entities back: the inverse of Escape. */
  function Unescape(t: string): string {
    if t == [] then []
    else if t[0] != '&' then [t[0]] + Unescape(t[1..])
    else if StartsWith(t, "&amp;") then "&" + Unescape(t[5..])
    else if StartsWith(t, "&lt;") then "<" + Unescape(t[4..])
    else if StartsWith(t, "&gt;") then ">" + Unescape(t[4..])
    else if StartsWith(t, "&quot;") then "\"" + Unescape(t[6..])
    else if StartsWith(t, "&#x27;") then "'" + Unescape(t[6..])
    else [t[0]] + Unescape(t[1..])
  }

  predicate StartsWith(s: string, prefix: string) { |prefix| <= |s| && s[..|prefix|] == prefix }

  lemma UnescapeChar(c: char, rest: string)
    ensures Unescape(EscapeChar(c) + rest) == [c] + Unescape(rest)
  {
    var t := EscapeChar(c) + rest;
    if c == '&' {
      assert t[..5] == "&amp;" && t[5..] == rest;
    } else if c == '<' {
      assert t[1] == 'l';
      assert t[..4] == "&lt;" && t[4..] == rest;
    } else if c == '>' {
      assert t[1] == 'g';
      assert t[..4] == "&gt;" && t[4..] == rest;
    } else if c == '"' {
      assert t[1] == 'q';
      assert t[..6] == "&quot;" && t[6..] == rest;
    } else if c == '\'' {
      assert t[1] == '#';
      assert t[..6] == "&#x27;" && t[6..] == rest;
    } else {
      assert t[0] == c && t[1..] == rest;
    }
  }

  /** Escaping loses nothing: unescaping gives back the original text. */
  lemma {:induction false} EscapeRoundTrip(s: string)
    ensures Unescape(Escape(s)) == s
  {
    if s != [] {
      EscapeRoundTrip(s[1..]);
      UnescapeChar(s[0], Escape(s[1..]));
    }
  }

  // ---------------------------------------------------------------- the input

  /** A bbox dictionary; a missing key is None. An absent or empty dictionary is a None bbox. */
  datatype BoxDict = BoxDict(x: Option<real>, y: Option<real>, w: Option<real>, h: Option<real>)

  /** A layout block dictionary, as extract_layout_blocks writes it. */
  datatype BlockDict = BlockDict(kind: Option<string>, bbox: Option<BoxDict>, text: Option<string>,
                                 font: Option<string>, size: Option<real>, color: Option<int>)

  /** An image dictionary. */
  datatype ImageDict = ImageDict(bbox: Option<BoxDict>, base64Data: Option<string>, format: Option<string>)

  /** A page dictionary. */
  datatype PageDict = PageDict(pageNumber: Option<int>, pageWidth: Option<real>, pageHeight: Option<real>,
                               layoutBlocks: seq<BlockDict>, images: seq<ImageDict>, text: Option<string>)

  // ---------------------------------------------------------------- the output

  /** Scaled geometry: left, top, width and height in pixels. */
  datatype Geometry = Geometry(left: real, top: real, width: real, height: real)

  datatype Element =
    | TextSpan(geometry: Geometry, fontSize: real, font: string, color: string, text: string)
    | ImagePlaceholder(geometry: Geometry)
    | EmbeddedImage(format: string, base64Data: string, geometry: Geometry, pageNumber: int)
    | FallbackText(text: string)

  datatype Section = Section(pageNumber: int, width: real, height: real, elements: seq<Element>)

  datatype Document = Document(title: string, pageCount: int, docIdShown: string, sections: seq<Section>)

  // ---------------------------------------------------------------- reconstruct_html

  const DefaultScale: real := 1.5
  const DefaultMaxWidth: real := 920.0
  const DefaultHeight: real := 1100.0

  /** _scale without the rounding: a missing or zero value scales to 0. */
  function Scale(v: Option<real>, factor: real): real {
    (if v.Some? then v.value else 0.0) * factor
  }

  function GeometryOf(b: BoxDict, factor: real): Geometry {
    Geometry(Scale(b.x, factor), Scale(b.y, factor), Scale(b.w, factor), Scale(b.h, factor))
  }

  /** Python truthiness of an optional number. */
  predicate TruthyReal(v: Option<real>) { v.Some? && v.value != 0.0 }

  /**
   * The page container: with both dimensions, the scaled width capped at
   * the maximum, the height scaled by the same factor; otherwise the
   * maximum width by 1100 at the requested scale. Returns (width, height, scale).
   */
  function Container(pw: Option<real>, ph: Option<real>, scale: real, maxWidth: real): (r: (real, real, real))
    ensures TruthyReal(pw) && TruthyReal(ph) ==>
      && r.0 <= maxWidth
      && (r.0 == pw.value * scale || r.0 == maxWidth)
      && r.2 * pw.value == r.0
      && r.1 * pw.value == ph.value * r.0
    ensures !(TruthyReal(pw) && TruthyReal(ph)) ==> r == (maxWidth, DefaultHeight, scale)
  {
    if TruthyReal(pw) && TruthyReal(ph) then
      var w := if pw.value * scale <= maxWidth then pw.value * scale else maxWidth;
      var actual := w / pw.value;
      (w, ph.value * actual, actual)
    else (maxWidth, DefaultHeight, scale)
  }

  /** A layout block is drawn when it has a bbox and is a text or an image block (a missing type is text). */
  predicate Drawn(b: BlockDict) {
    b.bbox.Some? && (b.kind.None? || b.kind == Some("text") || b.kind == Some("image"))
  }

  function BlockElement(b: BlockDict, factor: real): Element
    requires Drawn(b)
  {
    var g := GeometryOf(b.bbox.value, factor);
    if b.kind.None? || b.kind == Some("text") then
      TextSpan(g,
               (if b.size.Some? && b.size.value != 0.0 then b.size.value else 10.0) * factor,
               if b.font.Some? then b.font.value else "sans-serif",
               CssColor(b.color),
               Escape(if b.text.Some? then b.text.value else ""))
    else ImagePlaceholder(g)
  }

  /** The drawn layout blocks, in order. */
  function BlockElements(blocks: seq<BlockDict>, factor: real): seq<Element> {
    if blocks == [] then []
    else (if Drawn(blocks[0]) then [BlockElement(blocks[0], factor)] else []) + BlockElements(blocks[1..], factor)
  }

  /** An image is embedded only when it has both base64 data and a bbox. */
  predicate Embedded(img: ImageDict) {
    img.base64Data.Some? && img.base64Data.value != [] && img.bbox.Some?
  }

  function ImageElement(img: ImageDict, factor: real, pageNumber: int): Element
    requires Embedded(img)
  {
    EmbeddedImage(if img.format.Some? then img.format.value else "png", img.base64Data.value,
                  GeometryOf(img.bbox.value, factor), pageNumber)
  }

  function ImageElements(images: seq<ImageDict>, factor: real, pageNumber: int): seq<Element> {
    if images == [] then []
    else (if Embedded(images[0]) then [ImageElement(images[0], factor, pageNumber)] else [])
           + ImageElements(images[1..], factor, pageNumber)
  }

  /** What a page shows: its drawn blocks, then its embedded images, else its text as a fallback. */
  function PageElements(p: PageDict, factor: real): (es: seq<Element>)
    ensures var drawn := BlockElements(p.layoutBlocks, factor) + ImageElements(p.images, factor, PageNumberOf(p));
      && (drawn != [] ==> es == drawn)
      && (drawn == [] && p.text.Some? && p.text.value != [] ==> es == [FallbackText(Escape(p.text.value))])
      && (drawn == [] && (p.text.None? || p.text.value == []) ==> es == [])
  {
    var drawn := BlockElements(p.layoutBlocks, factor) + ImageElements(p.images, factor, PageNumberOf(p));
    if drawn == [] && p.text.Some? && p.text.value != [] then [FallbackText(Escape(p.text.value))] else drawn
  }

  function PageNumberOf(p: PageDict): int { if p.pageNumber.Some? then p.pageNumber.value else 0 }

  function SectionOf(p: PageDict, scale: real, maxWidth: real): Section {
    var c := Container(p.pageWidth, p.pageHeight, scale, maxWidth);
    Section(PageNumberOf(p), c.0, c.1, PageElements(p, c.2))
  }

  function Sections(pages: seq<PageDict>, scale: real, maxWidth: real): (r: seq<Section>)
    ensures |r| == |pages|
    ensures forall i :: 0 <= i < |pages| ==> r[i] == SectionOf(pages[i], scale, maxWidth)
  {
    if pages == [] then [] else [SectionOf(pages[0], scale, maxWidth)] + Sections(pages[1..], scale, maxWidth)
  }

  /**
   * reconstruct_html: one section per page in order, the escaped file name
   * as title (default "Untitled"), the page count, and the escaped first
   * twelve characters of the document id.
   */
  function ReconstructHtml(pages: seq<PageDict>, filename: Option<string>, docId: Option<string>,
                           scale: real, maxWidth: real): (d: Document)
    ensures d.pageCount == |pages| == |d.sections|
    ensures forall i :: 0 <= i < |pages| ==> d.sections[i].pageNumber == PageNumberOf(pages[i])
    ensures forall i :: 0 <= i < |d.title| ==> !Markup(d.title[i])
  {
    var name := if filename.Some? then filename.value else "Untitled";
    var id := if docId.Some? then docId.value else "";
    EscapeNoMarkup(name);
    Document(Escape(name), |pages|, Escape(if |id| <= 12 then id else id[..12]), Sections(pages, scale, maxWidth))
  }

  // ---------------------------------------------------------------- properties

  /** A drawn block is shown, and everything shown comes from a drawn block. */
  lemma {:induction false} BlockElementsMembers(blocks: seq<BlockDict>, factor: real, e: Element)
    ensures e in BlockElements(blocks, factor) <==>
      exists i :: 0 <= i < |blocks| && Drawn(blocks[i]) && e == BlockElement(blocks[i], factor)
  {
    if blocks != [] {
      BlockElementsMembers(blocks[1..], factor, e);
      if e in BlockElements(blocks[1..], factor) {
        var i :| 0 <= i < |blocks[1..]| && Drawn(blocks[1..][i]) && e == BlockElement(blocks[1..][i], factor);
        assert blocks[i + 1] == blocks[1..][i];
      }
      if exists i :: 0 <= i < |blocks| && Drawn(blocks[i]) && e == BlockElement(blocks[i], factor) {
        var i :| 0 <= i < |blocks| && Drawn(blocks[i]) && e == BlockElement(blocks[i], factor);
        if i > 0 {
          assert blocks[1..][i - 1] == blocks[i];
        }
      }
    }
  }

  /** An image with data and a bbox is embedded, and every embedded image is one. */
  lemma {:induction false} ImageElementsMembers(images: seq<ImageDict>, factor: real, pageNumber: int, e: Element)
    ensures e in ImageElements(images, factor, pageNumber) <==>
      exists i :: 0 <= i < |images| && Embedded(images[i]) && e == ImageElement(images[i], factor, pageNumber)
  {
    if images != [] {
      ImageElementsMembers(images[1..], factor, pageNumber, e);
      if e in ImageElements(images[1..], factor, pageNumber) {
        var i :| 0 <= i < |images[1..]| && Embedded(images[1..][i]) && e == ImageElement(images[1..][i], factor, pageNumber);
        assert images[i + 1] == images[1..][i];
      }
      if exists i :: 0 <= i < |images| && Embedded(images[i]) && e == ImageElement(images[i], factor, pageNumber) {
        var i :| 0 <= i < |images| && Embedded(images[i]) && e == ImageElement(images[i], factor, pageNumber);
        if i > 0 {
          assert images[1..][i - 1] == images[i];
        }
      }
    }
  }

  /** The text a page shows: escaped, so it holds no markup character. */
  predicate EscapedElement(e: Element) {
    && (e.TextSpan? ==> forall i :: 0 <= i < |e.text| ==> !Markup(e.text[i]))
    && (e.FallbackText? ==> forall i :: 0 <= i < |e.text| ==> !Markup(e.text[i]))
  }

  lemma {:induction false} BlockElementsEscaped(blocks: seq<BlockDict>, factor: real)
    ensures forall e :: e in BlockElements(blocks, factor) ==> EscapedElement(e)
  {
    forall e | e in BlockElements(blocks, factor) ensures EscapedElement(e) {
      BlockElementsMembers(blocks, factor, e);
      var i :| 0 <= i < |blocks| && Drawn(blocks[i]) && e == BlockElement(blocks[i], factor);
      EscapeNoMarkup(if blocks[i].text.Some? then blocks[i].text.value else "");
    }
  }

  lemma {:induction false} ImageElementsNoText(images: seq<ImageDict>, factor: real, pageNumber: int)
    ensures forall e :: e in ImageElements(images, factor, pageNumber) ==> e.EmbeddedImage?
  {
    forall e | e in ImageElements(images, factor, pageNumber) ensures e.EmbeddedImage? {
      ImageElementsMembers(images, factor, pageNumber, e);
    }
  }

  /**
   * Every text a page shows is HTML-escaped, and the fallback appears
   * exactly when nothing was drawn and the page has text.
   */
  lemma PageElementsFacts(p: PageDict, factor: real)
    ensures forall e :: e in PageElements(p, factor) ==> EscapedElement(e)
    ensures (exists e :: e in PageElements(p, factor) && e.FallbackText?) <==>
      (BlockElements(p.layoutBlocks, factor) == [] && ImageElements(p.images, factor, PageNumberOf(p)) == []
       && p.text.Some? && p.text.value != [])
  {
    var blocks := BlockElements(p.layoutBlocks, factor);
    var imgs := ImageElements(p.images, factor, PageNumberOf(p));
    BlockElementsEscaped(p.layoutBlocks, factor);
    ImageElementsNoText(p.images, factor, PageNumberOf(p));
    if p.text.Some? {
      EscapeNoMarkup(p.text.value);
    }
    forall e | e in blocks ensures !e.FallbackText? {
      BlockElementsMembers(p.layoutBlocks, factor, e);
    }
    if blocks == [] && imgs == [] && p.text.Some? && p.text.value != [] {
      assert FallbackText(Escape(p.text.value)) in PageElements(p, factor);
    }
  }
}
