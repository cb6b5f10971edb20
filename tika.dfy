/**
 * Apache Tika text extraction: the parser's content is split into pages at
 * form feeds. The parser itself is an input: the content it returns (None
 * when it found no text), or the exception it raised.
 */
module Tika {
  import opened Wrappers
  import opened Text
  import opened Utils

  const FormFeed: char := '\U{000C}'

  /** One entry of the page list: {"page_number": n, "text": t}. */
  datatype TikaPage = TikaPage(pageNumber: int, text: string)

  /** The pieces _split_pages keeps: all of them, except a blank last one. */
  function KeptPieces(content: string): (r: seq<string>)
  {
    var pieces := SplitOn(content, FormFeed);
    if Strip(pieces[|pieces| - 1]) == [] then pieces[..|pieces| - 1] else pieces
  }

  /** _split_pages: split at form feeds, drop a blank last piece, strip every page. */
  function SplitPages(content: string): (r: seq<string>)
  {
    if content == [] then []
    else
      StripAll(KeptPieces(content))
  }

  /** [p.strip() for p in pieces] */
  function StripAll(pieces: seq<string>): (r: seq<string>)
    ensures |r| == |pieces|
  {
    seq(|pieces|, i requires 0 <= i < |pieces| => Strip(pieces[i]))
  }

  /** The pages are the stripped pieces between form feeds, in order, with only a blank last piece dropped. */
  lemma SplitPagesPieces(content: string)
    ensures content == [] ==> SplitPages(content) == []
    ensures content != [] ==>
      var pieces := SplitOn(content, FormFeed);
      && |SplitPages(content)| == (if IsBlank(pieces[|pieces| - 1]) then |pieces| - 1 else |pieces|)
      && forall i :: 0 <= i < |SplitPages(content)| ==> SplitPages(content)[i] == Strip(pieces[i])
  {
    if content != [] {
      var pieces := SplitOn(content, FormFeed);
      var kept := KeptPieces(content);
      assert |kept| == (if IsBlank(pieces[|pieces| - 1]) then |pieces| - 1 else |pieces|) by {
        StripFacts(pieces[|pieces| - 1]);
      }
      assert SplitPages(content) == StripAll(kept);
      forall i | 0 <= i < |kept| ensures StripAll(kept)[i] == Strip(pieces[i]) {
        assert kept[i] == pieces[i];
      }
    }
  }

  /** Every page is stripped and free of form feeds. */
  lemma SplitPagesClean(content: string)
    ensures forall i :: 0 <= i < |SplitPages(content)| ==>
      IsStripped(SplitPages(content)[i]) && FormFeed !in SplitPages(content)[i]
  {
    if content != [] {
      var pieces := SplitOn(content, FormFeed);
      var kept := KeptPieces(content);
      forall i | 0 <= i < |kept|
        ensures IsStripped(Strip(kept[i])) && FormFeed !in Strip(kept[i])
      {
        assert kept[i] == pieces[i];
        StripFacts(kept[i]);
        StripChars(kept[i], FormFeed);
      }
    }
  }

  /**
   * When no piece between form feeds has surrounding whitespace and the
   * text does not end in a form feed, the pages are exactly those pieces,
   * so joining them with form feeds gives the content back.
   */
  lemma SplitPagesExact(content: string, pieces: seq<string>)
    requires content != [] && pieces == SplitOn(content, FormFeed)
    requires forall i :: 0 <= i < |pieces| ==> IsStripped(pieces[i])
    requires pieces[|pieces| - 1] != []
    ensures SplitPages(content) == pieces
    ensures Join(SplitPages(content), [FormFeed]) == content
  {
    assert KeptPieces(content) == pieces by {
      StripIdentity(pieces[|pieces| - 1]);
    }
    StripEach(pieces);
  }

  /** Stripping pieces that are already stripped changes none of them. */
  lemma StripEach(pieces: seq<string>)
    requires forall i :: 0 <= i < |pieces| ==> IsStripped(pieces[i])
    ensures StripAll(pieces) == pieces
  {
    forall i | 0 <= i < |pieces| ensures Strip(pieces[i]) == pieces[i] {
      StripIdentity(pieces[i]);
    }
  }

  /** parsed.get("content") or "": a missing or empty content is the empty text. */
  function ContentOf(content: Option<string>): string {
    if content.Some? then content.value else ""
  }

  /** The text Tika returned, with CRLF line ends turned into LF. */
  function Normalized(content: Option<string>): string {
    Replace(ContentOf(content), "\r\n", "\n")
  }

  /**
   * extract_with_tika: a parser failure becomes PdfProcessingError;
   * otherwise the stripped content and its pages, numbered from 1.
   */
  function ExtractWithTika(parsed: Result<Option<string>, Failure>): (r: Result<(string, seq<TikaPage>), Failure>)
    ensures r.Err? <==> parsed.Err?
    ensures r.Err? ==> r.error == Raised(ExtractionError(PdfProcessing, "Tika extraction failed: " + FailureMessage(parsed.error)))
    ensures r.Ok? ==> r.value.0 == Strip(Normalized(parsed.value))
    ensures r.Ok? ==> |r.value.1| == |SplitPages(Normalized(parsed.value))|
    ensures r.Ok? ==> forall i :: 0 <= i < |r.value.1| ==>
      r.value.1[i].pageNumber == i + 1 && r.value.1[i].text == SplitPages(Normalized(parsed.value))[i]
  {
    match parsed
    case Err(f) => Err(Raised(ExtractionError(PdfProcessing, "Tika extraction failed: " + FailureMessage(f))))
    case Ok(c) =>
      var content := Normalized(c);
      var texts := SplitPages(content);
      Ok((Strip(content), seq(|texts|, i requires 0 <= i < |texts| => TikaPage(i + 1, texts[i]))))
  }

  /** Tika never returns an empty page list for content with text before its first form feed. */
  lemma TikaPagesPresent(parsed: Result<Option<string>, Failure>)
    requires parsed.Ok?
    requires !IsBlank(SplitOn(Normalized(parsed.value), FormFeed)[0])
    ensures |ExtractWithTika(parsed).value.1| >= 1
  {
    var content := Normalized(parsed.value);
    var pieces := SplitOn(content, FormFeed);
    StripFacts(pieces[|pieces| - 1]);
  }
}
