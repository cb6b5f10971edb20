/**
 * The question-bank builder: the pages of an extraction result are split
 * into question segments, images are attached to them, each segment is
 * enriched (by the language model or by rule-based guesses), and the
 * enrichments are matched back to the segments by question number. The
 * header page gives the exam's title, subject and maximum marks, and the
 * roman-numeral section headers give each section's marks scheme.
 */
module QuestionBank {
  import opened Wrappers
  import opened Text
  import opened Patterns
  import opened QuestionParser
  import opened QuestionEnricher
  import QuestionPages
  import Sorting
  import Schema

  // ---------------------------------------------------------------------
  // Exam metadata
  // ---------------------------------------------------------------------

  /** The keys _extract_exam_metadata sets; a key is missing when its pattern finds nothing. */
  datatype ExamMetadata = ExamMetadata(examTitle: Option<string>, subject: Option<string>, totalMarks: Option<nat>)

  /** _extract_exam_metadata: the title line, the subject name and the maximum marks, each from its leftmost match. */
  function ExtractExamMetadata(fullText: string): (m: ExamMetadata)
    ensures m.examTitle.Some? ==> IsStripped(m.examTitle.value)
    ensures m.subject.Some? ==> m.subject.value != [] && IsUpper(m.subject.value[0]) && IsStripped(m.subject.value)
  {
    ExamMetadata(Title(fullText), Subject(fullText), MaxMarks(fullText))
  }

  function OrEmpty(s: Option<string>): string {
    if s.Some? then s.value else ""
  }

  predicate Given(s: Option<string>) { s.Some? && s.value != [] }

  /** The exam context handed to the enricher: "title - subject" when either is known, '' standing in for the other. */
  function ExamContext(m: ExamMetadata): (r: Option<string>)
    ensures r.Some? <==> Given(m.examTitle) || Given(m.subject)
  {
    if Given(m.examTitle) || Given(m.subject) then Some(OrEmpty(m.examTitle) + " - " + OrEmpty(m.subject)) else None
  }

  /** The context opens with the title, closes with the subject, and holds both with " - " between them. */
  lemma ContextParts(m: ExamMetadata)
    requires ExamContext(m).Some?
    ensures var c := ExamContext(m).value;
      var t := OrEmpty(m.examTitle);
      var s := OrEmpty(m.subject);
      && |c| == |t| + 3 + |s|
      && c[..|t|] == t
      && c[|t|..|t| + 3] == " - "
      && c[|t| + 3..] == s
  {
    var c := ExamContext(m).value;
    var t := OrEmpty(m.examTitle);
    var s := OrEmpty(m.subject);
    assert c == t + " - " + s;
    assert c[|t|..|t| + 3] == " - ";
    assert c[|t| + 3..] == s;
  }

  // ---------------------------------------------------------------------
  // Sections
  // ---------------------------------------------------------------------

  /** One entry of the bank's sections: the numeral, the marks per question and the number of questions. */
  datatype SectionInfo = SectionInfo(section: string, marksPerQuestion: nat, count: nat)

  /** Where the i-th header's text ends: at the next header, or at the end of the text. */
  function SectionEnd(t: string, hs: seq<Header>, i: nat): nat
    requires i < |hs|
  {
    if i + 1 < |hs| then hs[i + 1].start else |t|
  }

  /** Each header's text lies inside the text. */
  predicate WellPlaced(t: string, hs: seq<Header>) {
    forall i :: 0 <= i < |hs| ==> hs[i].start <= SectionEnd(t, hs, i) <= |t|
  }

  /** The headers of the text, as finditer gives them. */
  function Headers(t: string): (hs: seq<Header>)
    ensures WellPlaced(t, hs)
    ensures forall i :: 0 <= i < |hs| ==> hs[i].numeral in Numerals
  {
    HeadersFrom(t, 0)
  }

  /**
   * The i-th header's section: kept when the first marks header in its text
   * multiplies out, count times marks each equal to the total.
   */
  function SectionOf(t: string, hs: seq<Header>, i: nat): (r: Option<SectionInfo>)
    requires i < |hs| && WellPlaced(t, hs)
    ensures r.Some? ==> r.value.section == hs[i].numeral
  {
    var m := MarksSearch(t[hs[i].start..SectionEnd(t, hs, i)]);
    if m.Some? && m.value.count * m.value.each == m.value.total
    then Some(SectionInfo(hs[i].numeral, m.value.each, m.value.count))
    else None
  }

  /** Each header's section, or None when its marks do not multiply out. */
  function SectionOptions(t: string): (r: seq<Option<SectionInfo>>)
    ensures |r| == |Headers(t)|
  {
    var hs := Headers(t);
    seq(|hs|, i requires 0 <= i < |hs| => SectionOf(t, hs, i))
  }

  /** The values that are present, in order. */
  function Present<T>(xs: seq<Option<T>>): (r: seq<T>)
    ensures |r| <= |xs|
  {
    if xs == [] then []
    else Present(xs[..|xs| - 1]) + (if xs[|xs| - 1].Some? then [xs[|xs| - 1].value] else [])
  }

  lemma PresentSnoc<T>(xs: seq<Option<T>>, x: Option<T>)
    ensures Present(xs + [x]) == Present(xs) + (if x.Some? then [x.value] else [])
  {
    assert (xs + [x])[..|xs|] == xs;
  }

  /** One more element of a prefix. */
  lemma PresentNext<T>(xs: seq<Option<T>>, i: nat)
    requires i < |xs|
    ensures Present(xs[..i + 1]) == Present(xs[..i]) + (if xs[i].Some? then [xs[i].value] else [])
  {
    assert xs[..i + 1] == xs[..i] + [xs[i]];
    PresentSnoc(xs[..i], xs[i]);
  }

  /** Every present value comes from some element. */
  lemma {:induction false} PresentFrom<T>(xs: seq<Option<T>>, j: nat)
    requires j < |Present(xs)|
    ensures exists i :: 0 <= i < |xs| && xs[i] == Some(Present(xs)[j])
  {
    var prior := xs[..|xs| - 1];
    if j < |Present(prior)| {
      PresentFrom(prior, j);
      var i :| 0 <= i < |prior| && prior[i] == Some(Present(prior)[j]);
      assert xs[i] == prior[i];
    } else {
      assert xs[|xs| - 1] == Some(Present(xs)[j]);
    }
  }

  /** Every element that holds a value contributes it. */
  lemma {:induction false} PresentHas<T>(xs: seq<Option<T>>, i: nat)
    requires i < |xs| && xs[i].Some?
    ensures xs[i].value in Present(xs)
  {
    var prior := xs[..|xs| - 1];
    if i < |xs| - 1 {
      PresentHas(prior, i);
      assert prior[i] == xs[i];
    }
  }

  /** The bank's sections: the headers' sections that are kept, in header order. */
  function Sections(t: string): seq<SectionInfo> {
    Present(SectionOptions(t))
  }

  /** _extract_sections: one pass over the headers, keeping the ones whose marks multiply out. */
  method ExtractSections(fullText: string) returns (sections: seq<SectionInfo>)
    ensures sections == Sections(fullText)
  {
    var hs := HeadersFrom(fullText, 0);
    ghost var options := SectionOptions(fullText);
    sections := [];
    for i := 0 to |hs|
      invariant sections == Present(options[..i])
    {
      PresentNext(options, i);
      var section := SectionAtHeader(fullText, hs, i);
      if section.Some? {
        sections := sections + [section.value];
      }
    }
    assert options[..|hs|] == options;
  }

  /** One header: its text runs to the next header; the first marks header in it must multiply out. */
  method SectionAtHeader(fullText: string, hs: seq<Header>, i: nat) returns (section: Option<SectionInfo>)
    requires hs == Headers(fullText) && i < |hs|
    ensures section == SectionOf(fullText, hs, i)
  {
    var endPos := if i + 1 < |hs| then hs[i + 1].start else |fullText|;
    var sectionText := fullText[hs[i].start..endPos];
    var m := MarksSearch(sectionText);
    section := None;
    if m.Some? && m.value.count * m.value.each == m.value.total {
      section := Some(SectionInfo(hs[i].numeral, m.value.each, m.value.count));
    }
  }

  /**
   * The sections are exactly the kept headers': every section is the
   * section of some header, and every header whose marks multiply out
   * gives a section.
   */
  lemma SectionsFromHeaders(t: string, j: nat)
    requires j < |Sections(t)|
    ensures exists i :: 0 <= i < |Headers(t)| && SectionOf(t, Headers(t), i) == Some(Sections(t)[j])
  {
    PresentFrom(SectionOptions(t), j);
  }

  lemma HeaderKept(t: string, i: nat)
    requires i < |Headers(t)| && SectionOf(t, Headers(t), i).Some?
    ensures SectionOf(t, Headers(t), i).value in Sections(t)
  {
    PresentHas(SectionOptions(t), i);
  }

  // ---------------------------------------------------------------------
  // The enrichment lookup
  // ---------------------------------------------------------------------

  /** The lookup by question number: an enrichment without a number is skipped, and a later one replaces an earlier one. */
  function LookupOf(enrs: seq<Enrichment>): map<int, Enrichment> {
    if enrs == [] then map[]
    else
      var m := LookupOf(enrs[..|enrs| - 1]);
      var e := enrs[|enrs| - 1];
      if e.questionNumber.Some? then m[e.questionNumber.value := e] else m
  }

  /** The loop that builds enrichment_lookup. */
  method BuildLookup(enrs: seq<Enrichment>) returns (lookup: map<int, Enrichment>)
    ensures lookup == LookupOf(enrs)
  {
    lookup := map[];
    for i := 0 to |enrs|
      invariant lookup == LookupOf(enrs[..i])
    {
      assert enrs[..i + 1][..i] == enrs[..i];
      var qn := enrs[i].questionNumber;
      if qn.Some? {
        lookup := lookup[qn.value := enrs[i]];
      }
    }
    assert enrs[..|enrs|] == enrs;
  }

  /** The last enrichment carrying number n, the one the lookup keeps. */
  predicate LastWithNumber(enrs: seq<Enrichment>, n: int, i: int) {
    0 <= i < |enrs| && enrs[i].questionNumber == Some(n)
      && forall j :: i < j < |enrs| ==> enrs[j].questionNumber != Some(n)
  }

  /**
   * A number is looked up exactly when some enrichment carries it, and then
   * the lookup gives the last enrichment that carries it.
   */
  lemma {:induction false} LookupLastWins(enrs: seq<Enrichment>, n: int)
    ensures n in LookupOf(enrs) <==> exists i :: 0 <= i < |enrs| && enrs[i].questionNumber == Some(n)
    ensures n in LookupOf(enrs) ==> exists i :: LastWithNumber(enrs, n, i) && LookupOf(enrs)[n] == enrs[i]
    decreases |enrs|
  {
    if enrs != [] {
      var prior := enrs[..|enrs| - 1];
      var last := |enrs| - 1;
      LookupLastWins(prior, n);
      if enrs[last].questionNumber == Some(n) {
        assert LastWithNumber(enrs, n, last);
      } else {
        assert forall i :: 0 <= i < |prior| ==> prior[i] == enrs[i];
        if n in LookupOf(enrs) {
          var i :| LastWithNumber(prior, n, i) && LookupOf(prior)[n] == prior[i];
          assert LastWithNumber(enrs, n, i);
        }
      }
    }
  }

  // ---------------------------------------------------------------------
  // Questions
  // ---------------------------------------------------------------------

  /** A bank question; the alternative of an OR question is a question of its own. */
  datatype Question = Question(
    questionNumber: int,
    section: Option<string>,
    pageNumber: int,
    text: string,
    questionType: Option<string>,
    marks: Option<int>,
    topic: Option<string>,
    difficulty: Option<string>,
    options: seq<Choice>,
    subParts: seq<SubPart>,
    images: seq<SegmentImage>,
    hasOrAlternative: bool,
    orQuestion: Option<Question>)

  /** seg.question_number or 0: a missing number and the number 0 both give 0. */
  function NumberOrZero(n: Option<int>): int {
    if n.Some? then n.value else 0
  }

  /** The segment's question, with the enrichment found for its number, or with none. */
  function QuestionOf(seg: Segment, lookup: map<int, Enrichment>): Question {
    var key := NumberOrZero(seg.questionNumber);
    var e := if key in lookup then Some(lookup[key]) else None;
    var qtype := if e.Some? then e.value.questionType else None;
    var marks := if e.Some? then e.value.marks else None;
    var topic := if e.Some? then e.value.topic else None;
    var difficulty := if e.Some? then e.value.difficulty else None;
    var alternative :=
      if seg.hasOr && seg.orText.Some? && seg.orText.value != [] then
        Some(Question(key, seg.section, seg.pageNumber, seg.orText.value, qtype, marks, topic, difficulty,
                      [], [], [], false, None))
      else None;
    Question(key, seg.section, seg.pageNumber, seg.text, qtype, marks, topic, difficulty,
             if e.Some? then e.value.options else [], if e.Some? then e.value.subParts else [],
             seg.images, seg.hasOr, alternative)
  }

  /**
   * A question keeps its segment's place, text and images; it takes the
   * enrichment looked up under its number, or none at all; and it has an
   * alternative exactly when the segment has a non-empty OR text, which
   * then shares the number, the section, the page and the enrichment.
   */
  lemma QuestionFacts(seg: Segment, lookup: map<int, Enrichment>)
    ensures var q := QuestionOf(seg, lookup);
      var key := NumberOrZero(seg.questionNumber);
      && q.questionNumber == key && q.section == seg.section && q.pageNumber == seg.pageNumber
      && q.text == seg.text && q.images == seg.images && q.hasOrAlternative == seg.hasOr
      && (key in lookup ==> (
            && q.questionType == lookup[key].questionType && q.marks == lookup[key].marks
            && q.topic == lookup[key].topic && q.difficulty == lookup[key].difficulty
            && q.options == lookup[key].options && q.subParts == lookup[key].subParts))
      && (key !in lookup ==> (
            && q.questionType.None? && q.marks.None? && q.topic.None? && q.difficulty.None?
            && q.options == [] && q.subParts == []))
  {
  }

  lemma AlternativeFacts(seg: Segment, lookup: map<int, Enrichment>)
    ensures var q := QuestionOf(seg, lookup);
      && (q.orQuestion.Some? <==> seg.hasOr && seg.orText.Some? && seg.orText.value != [])
      && (q.orQuestion.Some? ==> (
            var a := q.orQuestion.value;
            && Some(a.text) == seg.orText && a.questionNumber == q.questionNumber
            && a.section == q.section && a.pageNumber == q.pageNumber
            && a.questionType == q.questionType && a.marks == q.marks
            && a.topic == q.topic && a.difficulty == q.difficulty
            && a.options == [] && a.subParts == [] && a.images == [] && a.orQuestion.None?))
  {
  }

  /** Segments with equal numbers get the same enrichment. */
  lemma SameNumberSameEnrichment(a: Segment, b: Segment, lookup: map<int, Enrichment>)
    requires NumberOrZero(a.questionNumber) == NumberOrZero(b.questionNumber)
    ensures var qa := QuestionOf(a, lookup);
      var qb := QuestionOf(b, lookup);
      qa.questionType == qb.questionType && qa.marks == qb.marks && qa.topic == qb.topic
        && qa.difficulty == qb.difficulty && qa.options == qb.options && qa.subParts == qb.subParts
  {
  }

  /** The questions, one per segment, in order. */
  method BuildQuestions(segs: seq<Segment>, lookup: map<int, Enrichment>) returns (questions: seq<Question>)
    ensures |questions| == |segs|
    ensures forall i :: 0 <= i < |segs| ==> questions[i] == QuestionOf(segs[i], lookup)
  {
    questions := [];
    for i := 0 to |segs|
      invariant |questions| == i
      invariant forall j :: 0 <= j < i ==> questions[j] == QuestionOf(segs[j], lookup)
    {
      var question := QuestionWith(segs[i], lookup);
      questions := questions + [question];
    }
  }

  /** One question, built from its segment and the enrichment found for it. */
  method QuestionWith(seg: Segment, lookup: map<int, Enrichment>) returns (question: Question)
    ensures question == QuestionOf(seg, lookup)
  {
    var key := if seg.questionNumber.Some? then seg.questionNumber.value else 0;
    var enrichment := if key in lookup then Some(lookup[key]) else None;
    var qtype := if enrichment.Some? then enrichment.value.questionType else None;
    var marks := if enrichment.Some? then enrichment.value.marks else None;
    var topic := if enrichment.Some? then enrichment.value.topic else None;
    var difficulty := if enrichment.Some? then enrichment.value.difficulty else None;
    var options := if enrichment.Some? then enrichment.value.options else [];
    var subParts := if enrichment.Some? then enrichment.value.subParts else [];
    var orQuestion: Option<Question> := None;
    if seg.hasOr && seg.orText.Some? && seg.orText.value != [] {
      orQuestion := Some(Question(key, seg.section, seg.pageNumber, seg.orText.value, qtype, marks, topic, difficulty,
                                  [], [], [], false, None));
    }
    question := Question(key, seg.section, seg.pageNumber, seg.text, qtype, marks, topic, difficulty,
                         options, subParts, seg.images, seg.hasOr, orQuestion);
  }

  // ---------------------------------------------------------------------
  // The bank
  // ---------------------------------------------------------------------

  datatype Bank = Bank(
    docId: string,
    filename: string,
    ingestedAt: string,
    examTitle: Option<string>,
    subject: Option<string>,
    totalMarks: Option<nat>,
    totalQuestions: nat,
    sections: seq<SectionInfo>,
    questions: seq<Question>)

  /** What the segmenter reads of each page: its number and its text. */
  function PageTexts(pages: seq<Schema.Page>): (r: seq<QuestionPages.PageText>)
    ensures |r| == |pages|
  {
    seq(|pages|, i requires 0 <= i < |pages| => QuestionPages.PageText(pages[i].pageNumber, pages[i].text))
  }

  /** What the image associator reads of each page: a page record has no height and no images. */
  function ImagePages(pages: seq<Schema.Page>): (r: seq<QuestionPages.ImagePage>)
    ensures |r| == |pages| && forall i :: 0 <= i < |r| ==> r[i].images == []
  {
    seq(|pages|, i requires 0 <= i < |pages| => QuestionPages.ImagePage(pages[i].pageNumber, None, []))
  }

  /** The parsed segments of the pages, sorted by question number. */
  function Segments(pages: seq<Schema.Page>): seq<Segment> {
    var texts := PageTexts(pages);
    Sorting.SortBy(QuestionPages.Collected(texts, |texts|).0, QuestionPages.NumberKey)
  }

  /** The enrichments: the model's (with its fallbacks) when asked for, the rule-based ones otherwise. */
  function Enrichments(segs: seq<Segment>, enrichWithLlm: bool, available: bool,
                       answers: seq<Option<seq<Enrichment>>>): seq<Enrichment> {
    if enrichWithLlm then Enrich(segs, available, answers) else Fallback(segs)
  }

  /**
   * build_question_bank, with the model's availability and answers as
   * inputs: one question per parsed segment, in order, each with the
   * enrichment looked up under its number; the header metadata; and the
   * sections whose marks multiply out.
   */
  method BuildQuestionBank(result: Schema.ExtractionResult, enrichWithLlm: bool, available: bool,
                           answers: seq<Option<seq<Enrichment>>>)
    returns (bank: Bank)
    ensures var segs := Segments(result.pages);
      && bank.totalQuestions == |bank.questions| == |segs|
      && forall i :: 0 <= i < |segs| ==>
           bank.questions[i] == QuestionOf(segs[i], LookupOf(Enrichments(segs, enrichWithLlm, available, answers)))
    ensures bank.docId == result.docId && bank.filename == result.filename && bank.ingestedAt == result.ingestedAt
    ensures var m := ExtractExamMetadata(result.fullText);
      bank.examTitle == m.examTitle && bank.subject == m.subject && bank.totalMarks == m.totalMarks
    ensures bank.sections == Sections(result.fullText)
  {
    var raw := QuestionPages.ParseAllPages(PageTexts(result.pages));
    var imagePages := ImagePages(result.pages);
    var attached := QuestionPages.AssociateImages(raw, imagePages, result.diagrams);
    QuestionPages.NoBoxesNoChange(raw, imagePages, |imagePages|, result.diagrams);
    var metadata := ExtractExamMetadata(result.fullText);
    var context := ExamContext(metadata);
    var enrichments;
    if enrichWithLlm {
      enrichments := EnrichQuestions(attached, context, available, answers);
    } else {
      enrichments := FallbackEnrichment(attached);
    }
    var lookup := BuildLookup(enrichments);
    var questions := BuildQuestions(attached, lookup);
    var sections := ExtractSections(result.fullText);
    bank := Bank(result.docId, result.filename, result.ingestedAt, metadata.examTitle, metadata.subject,
                 metadata.totalMarks, |questions|, sections, questions);
  }

  /**
   * Without the model, a segment whose number no other segment shares gets
   * its own rule-based enrichment: its marks read off its text and the
   * difficulty read off those marks.
   */
  lemma UniqueNumberOwnFallback(segs: seq<Segment>, i: nat)
    requires i < |segs| && segs[i].questionNumber.Some?
    requires forall j :: 0 <= j < |segs| && j != i ==> segs[j].questionNumber != segs[i].questionNumber
    ensures var q := QuestionOf(segs[i], LookupOf(Fallback(segs)));
      && q.marks == GuessMarks(segs[i].text)
      && q.difficulty == GuessDifficulty(GuessMarks(segs[i].text))
      && q.options == Options(segs[i].text)
      && q.topic.None? && q.subParts == []
  {
    var enrs := Fallback(segs);
    var n := segs[i].questionNumber.value;
    assert enrs[i].questionNumber == Some(n);
    assert forall j :: 0 <= j < |enrs| && j != i ==> enrs[j].questionNumber != Some(n);
    LookupLastWins(enrs, n);
  }

  /**
   * Without the model, and when no segment carries the number 0, a segment
   * without a number finds no enrichment: every enriched field is empty.
   */
  lemma UnnumberedGetsNothing(segs: seq<Segment>, i: nat)
    requires i < |segs| && segs[i].questionNumber.None?
    requires forall j :: 0 <= j < |segs| ==> segs[j].questionNumber != Some(0)
    ensures var q := QuestionOf(segs[i], LookupOf(Fallback(segs)));
      q.questionNumber == 0 && q.questionType.None? && q.marks.None? && q.topic.None? && q.difficulty.None?
        && q.options == [] && q.subParts == []
  {
    var enrs := Fallback(segs);
    assert forall k :: 0 <= k < |enrs| ==> enrs[k].questionNumber != Some(0);
    LookupLastWins(enrs, 0);
  }
}
