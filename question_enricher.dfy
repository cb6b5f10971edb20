/**
 * Enrichment of question segments: each segment gets a question type,
 * marks, a topic, a difficulty, its options and its sub-parts. A language
 * model answers batches of fifteen segments; when it is not available, or a
 * batch gets no usable answer, rule-based guesses stand in: the options
 * written "(A) ... (B) ...", the trailing marks number, and a difficulty
 * read off the marks.
 *
 * The model's answers are inputs: the k-th entry of `answers` is what the
 * call for the k-th batch returned after its retries, None when it failed.
 */
module QuestionEnricher {
  import opened Wrappers
  import opened Text
  import opened Patterns
  import opened QuestionParser

  /** Questions per model call. */
  const BatchSize: nat := 15

  /** A sub-part of a question: its label, its text and its marks. */
  datatype SubPart = SubPart(name: string, text: string, marks: Option<int>)

  /** One enrichment dictionary; None stands for null or a missing key. */
  datatype Enrichment = Enrichment(
    questionNumber: Option<int>,
    questionType: Option<string>,
    marks: Option<int>,
    topic: Option<string>,
    difficulty: Option<string>,
    options: seq<Choice>,
    subParts: seq<SubPart>,
    requiresFigure: bool)

  // ---------------------------------------------------------------------
  // Rule-based guesses
  // ---------------------------------------------------------------------

  /** _guess_difficulty: none without marks, easy up to 1, medium up to 3, hard above. */
  function GuessDifficulty(marks: Option<int>): (r: Option<string>)
    ensures r.None? <==> marks.None?
    ensures r == Some("easy") <==> marks.Some? && marks.value <= 1
    ensures r == Some("medium") <==> marks.Some? && 1 < marks.value <= 3
    ensures r == Some("hard") <==> marks.Some? && 3 < marks.value
  {
    if marks.None? then None
    else if marks.value <= 1 then Some("easy")
    else if marks.value <= 3 then Some("medium")
    else Some("hard")
  }

  function Rank(d: Option<string>): nat {
    if d == Some("easy") then 0 else if d == Some("medium") then 1 else 2
  }

  /** More marks never make a question look easier. */
  lemma DifficultyMonotone(a: int, b: int)
    requires a <= b
    ensures Rank(GuessDifficulty(Some(a))) <= Rank(GuessDifficulty(Some(b)))
  {
    if b <= 1 {
      assert GuessDifficulty(Some(a)) == Some("easy");
    } else if b <= 3 {
      assert GuessDifficulty(Some(b)) == Some("medium");
    } else {
      assert GuessDifficulty(Some(b)) == Some("hard");
    }
  }

  /** _guess_marks_from_text: the trailing one- or two-digit number of the stripped text, when it is 1 to 10. */
  function GuessMarks(text: string): (r: Option<int>)
    ensures r.Some? ==> 1 <= r.value <= 10
  {
    var n := TrailingNumber(Strip(text));
    if n.Some? && 1 <= n.value <= 10 then Some(n.value) else None
  }

  /** A number below 100 has at most two digits. */
  lemma TwoDigits(n: nat)
    requires n < 100
    ensures |NatToString(n)| <= 2
  {
    if n >= 10 {
      assert NatToString(n) == NatToString(n / 10) + [DigitChar(n % 10)];
    }
  }

  /** A text ending in a space and a number from 1 to 10 is read as carrying those marks. */
  lemma GuessMarksOf(a: string, n: nat)
    requires 1 <= n <= 10 && a != [] && !IsSpace(a[0])
    ensures GuessMarks(a + " " + NatToString(n)) == Some(n)
  {
    var d := NatToString(n);
    var t := a + " " + d;
    var p := |a| + 1;
    TwoDigits(n);
    assert t[0] == a[0] && t[|t| - 1] == d[|d| - 1];
    StripIdentity(t);
    assert t[p..] == d;
    assert forall k :: p <= k < |t| ==> t[k] == d[k - p];
    assert t[p - 1] == ' ';
    DigitsStartAt(t, p, |t|);
    ValueOfNumber(t, p, n);
  }

  /** The options as _extract_options_regex gives them: labels upper-cased to A-D, texts stripped. */
  function Options(text: string): (r: seq<Choice>)
    ensures forall i :: 0 <= i < |r| ==> 'A' <= r[i].letter <= 'D' && IsStripped(r[i].text)
  {
    Choices(text)
  }

  /** The rule-based enrichment of one segment. */
  function FallbackOf(seg: Segment): (e: Enrichment)
    ensures e.questionNumber == seg.questionNumber && e.topic.None? && e.subParts == []
    ensures e.questionType.Some? <==> e.options != []
    ensures e.questionType.Some? ==> e.questionType == Some("mcq")
    ensures e.options == Options(seg.text)
    ensures e.marks.Some? ==> 1 <= e.marks.value <= 10
    ensures e.difficulty.None? <==> e.marks.None?
    ensures e.difficulty == GuessDifficulty(e.marks)
    ensures e.requiresFigure == HasFigureReference(seg.text)
  {
    var options := Options(seg.text);
    var marks := GuessMarks(seg.text);
    Enrichment(seg.questionNumber, if options != [] then Some("mcq") else None, marks, None,
               GuessDifficulty(marks), if options != [] then options else [], [], HasFigureReference(seg.text))
  }

  /** The rule-based enrichments of the segments, in order. */
  function Fallback(segs: seq<Segment>): (r: seq<Enrichment>)
    ensures |r| == |segs| && forall i :: 0 <= i < |segs| ==> r[i] == FallbackOf(segs[i])
  {
    seq(|segs|, i requires 0 <= i < |segs| => FallbackOf(segs[i]))
  }

  lemma FallbackConcat(a: seq<Segment>, b: seq<Segment>)
    ensures Fallback(a + b) == Fallback(a) + Fallback(b)
  {
    assert forall i :: |a| <= i < |a + b| ==> (a + b)[i] == b[i - |a|];
  }

  /** _fallback_enrichment: one result per segment, in order. */
  method FallbackEnrichment(segs: seq<Segment>) returns (results: seq<Enrichment>)
    ensures results == Fallback(segs)
  {
    results := [];
    for i := 0 to |segs|
      invariant results == Fallback(segs[..i])
    {
      FallbackConcat(segs[..i], [segs[i]]);
      assert segs[..i + 1] == segs[..i] + [segs[i]];
      var seg := segs[i];
      var options := Options(seg.text);
      var marks := GuessMarks(seg.text);
      results := results + [Enrichment(seg.questionNumber, if options != [] then Some("mcq") else None, marks, None,
                                       GuessDifficulty(marks), if options != [] then options else [], [],
                                       HasFigureReference(seg.text))];
    }
    assert segs[..|segs|] == segs;
  }

  // ---------------------------------------------------------------------
  // The prompt
  // ---------------------------------------------------------------------

  /** An f-string of an optional number: "None" for null. */
  function NumberText(n: Option<int>): string {
    if n.Some? then IntToString(n.value) else "None"
  }

  function SectionText(s: Option<string>): string {
    if s.Some? then s.value else "None"
  }

  /** The figure notes of the first k images: one per image with a non-empty description. */
  function FigureNotes(images: seq<SegmentImage>, k: nat): string
    requires k <= |images|
  {
    if k == 0 then ""
    else
      var d := images[k - 1].description;
      FigureNotes(images, k - 1) + (if d.Some? && d.value != [] then "\n  [Associated figure: " + d.value + "]" else "")
  }

  /** The part of an entry that gives the alternative: only when the mark is set and the text is not empty. */
  function OrPart(seg: Segment): string {
    if seg.hasOr && seg.orText.Some? && seg.orText.value != [] then "\nOR\n" + seg.orText.value else ""
  }

  /** The start of an entry: the number, the section and the text. */
  function Head(seg: Segment): string {
    "Q" + NumberText(seg.questionNumber) + " (Section " + SectionText(seg.section) + "):\n" + seg.text
  }

  /** One segment's entry. */
  function Entry(seg: Segment): string {
    Head(seg) + OrPart(seg) + FigureNotes(seg.images, |seg.images|)
  }

  /** The opening parts: the exam context when there is one, then the heading. */
  function Header(context: Option<string>): (r: seq<string>)
    ensures |r| == if context.Some? && context.value != [] then 2 else 1
  {
    (if context.Some? && context.value != [] then ["Exam context: " + context.value + "\n"] else [])
      + ["Questions to analyze:\n"]
  }

  /** f applied to the first k elements, in order. */
  function Mapped<T, U>(f: T -> U, xs: seq<T>, k: nat): (r: seq<U>)
    requires k <= |xs|
    ensures |r| == k
  {
    if k == 0 then [] else Mapped(f, xs, k - 1) + [f(xs[k - 1])]
  }

  /** Each string followed by a separator. */
  function Separated(es: seq<string>): (r: seq<string>)
    ensures |r| == 2 * |es|
  {
    if es == [] then [] else Separated(es[..|es| - 1]) + [es[|es| - 1], "---"]
  }

  lemma SeparatedSnoc(es: seq<string>, e: string)
    ensures Separated(es + [e]) == Separated(es) + [e, "---"]
  {
    assert (es + [e])[..|es|] == es;
  }

  /** The prompt's parts, in order; the prompt joins them with newlines. */
  function PromptParts(segs: seq<Segment>, context: Option<string>): seq<string> {
    Header(context) + Separated(Mapped(Entry, segs, |segs|))
  }

  function Prompt(segs: seq<Segment>, context: Option<string>): string {
    Join(PromptParts(segs, context), "\n")
  }

  /** Each string is followed by a separator, in order. */
  lemma {:induction false} SeparatedLayout(es: seq<string>, i: nat)
    requires i < |es|
    ensures Separated(es)[2 * i] == es[i] && Separated(es)[2 * i + 1] == "---"
  {
    if i < |es| - 1 {
      SeparatedLayout(es[..|es| - 1], i);
    }
  }

  /** The i-th element is f of the i-th input. */
  lemma {:induction false} MappedAt<T, U>(f: T -> U, xs: seq<T>, k: nat, i: nat)
    requires i < k <= |xs|
    ensures Mapped(f, xs, k)[i] == f(xs[i])
  {
    if i < k - 1 {
      MappedAt(f, xs, k - 1, i);
    }
  }

  /** After the header, the prompt's parts are each segment's entry followed by a separator, in segment order. */
  lemma EntryLayout(segs: seq<Segment>, context: Option<string>, i: nat)
    requires i < |segs|
    ensures var parts := PromptParts(segs, context);
      var h := |Header(context)|;
      |parts| == h + 2 * |segs| && parts[h + 2 * i] == Entry(segs[i]) && parts[h + 2 * i + 1] == "---"
  {
    PartsLayout(Header(context), Mapped(Entry, segs, |segs|), i);
    MappedAt(Entry, segs, |segs|, i);
  }

  lemma PartsLayout(hd: seq<string>, es: seq<string>, i: nat)
    requires i < |es|
    ensures |hd + Separated(es)| == |hd| + 2 * |es|
    ensures (hd + Separated(es))[|hd| + 2 * i] == es[i] && (hd + Separated(es))[|hd| + 2 * i + 1] == "---"
  {
    SeparatedLayout(es, i);
  }

  /** The alternative's text appears in an entry exactly when the mark is set and the text is not empty. */
  lemma OrPartShown(seg: Segment)
    ensures OrPart(seg) != [] <==> seg.hasOr && seg.orText.Some? && seg.orText.value != []
    ensures OrPart(seg) != [] ==> OrPart(seg)[4..] == seg.orText.value
  {
    if seg.hasOr && seg.orText.Some? && seg.orText.value != [] {
      assert OrPart(seg)[..4] == "\nOR\n";
    }
  }

  /** The figure notes of one segment's images. */
  method FigureNotesOf(images: seq<SegmentImage>) returns (notes: string)
    ensures notes == FigureNotes(images, |images|)
  {
    notes := "";
    for k := 0 to |images|
      invariant notes == FigureNotes(images, k)
    {
      var d := images[k].description;
      if d.Some? && d.value != [] {
        notes := notes + "\n  [Associated figure: " + d.value + "]";
      }
    }
  }

  /** _build_user_prompt: the parts, joined with newlines. */
  method BuildUserPrompt(segs: seq<Segment>, context: Option<string>) returns (prompt: string)
    ensures prompt == Prompt(segs, context)
  {
    var parts := BuildParts(segs, context);
    prompt := Join(parts, "\n");
  }

  /** The parts of the prompt, appended one by one. */
  method BuildParts(segs: seq<Segment>, context: Option<string>) returns (parts: seq<string>)
    ensures parts == PromptParts(segs, context)
  {
    var header := BuildHeader(context);
    var body := BuildBody(segs);
    parts := header + body;
  }

  /** The entries, each followed by a separator, appended one by one. */
  method BuildBody(segs: seq<Segment>) returns (body: seq<string>)
    ensures body == Separated(Mapped(Entry, segs, |segs|))
  {
    body := [];
    for i := 0 to |segs|
      invariant body == Separated(Mapped(Entry, segs, i))
    {
      var entry := BuildEntry(segs[i]);
      SeparatedSnoc(Mapped(Entry, segs, i), entry);
      body := body + [entry];
      body := body + ["---"];
    }
  }

  /** The opening parts, built piece by piece. */
  method BuildHeader(context: Option<string>) returns (parts: seq<string>)
    ensures parts == Header(context)
  {
    parts := [];
    if context.Some? && context.value != [] {
      parts := parts + ["Exam context: " + context.value + "\n"];
    }
    parts := parts + ["Questions to analyze:\n"];
  }

  /** One segment's entry, built piece by piece. */
  method BuildEntry(seg: Segment) returns (entry: string)
    ensures entry == Entry(seg)
  {
    var notes := FigureNotesOf(seg.images);
    entry := Head(seg);
    if seg.hasOr && seg.orText.Some? && seg.orText.value != [] {
      entry := entry + ("\nOR\n" + seg.orText.value);
    }
    if notes != [] {
      entry := entry + notes;
    }
  }

  // ---------------------------------------------------------------------
  // Batches
  // ---------------------------------------------------------------------

  function Min(a: int, b: int): int { if a <= b then a else b }

  /** The k-th batch: segments[15k : 15k + 15]. */
  function Batch(segs: seq<Segment>, k: nat): (b: seq<Segment>)
    requires 15 * k < |segs|
    ensures 1 <= |b| <= BatchSize
  {
    segs[15 * k..Min(15 * k + BatchSize, |segs|)]
  }

  /** The number of batches: range(0, n, 15) has this many elements. */
  function BatchCount(n: nat): (r: nat)
    ensures 15 * r >= n && (r == 0 || 15 * (r - 1) < n)
  {
    (n + BatchSize - 1) / BatchSize
  }

  /** What the k-th call returned, None when there was no answer. */
  function AnswerAt(answers: seq<Option<seq<Enrichment>>>, k: nat): Option<seq<Enrichment>> {
    if k < |answers| then answers[k] else None
  }

  /** The enrichments of one batch: the model's list when it is not empty, otherwise the rule-based ones. */
  function BatchResult(segs: seq<Segment>, answers: seq<Option<seq<Enrichment>>>, k: nat): seq<Enrichment>
    requires 15 * k < |segs|
  {
    var a := AnswerAt(answers, k);
    if a.Some? && a.value != [] then a.value else Fallback(Batch(segs, k))
  }

  /** The enrichments of the first k batches. */
  function EnrichedUpTo(segs: seq<Segment>, answers: seq<Option<seq<Enrichment>>>, k: nat): seq<Enrichment>
    requires k == 0 || 15 * (k - 1) < |segs|
  {
    if k == 0 then [] else EnrichedUpTo(segs, answers, k - 1) + BatchResult(segs, answers, k - 1)
  }

  /** enrich_questions: [] for no segments, the rule-based enrichment when no model is available, otherwise batch by batch. */
  function Enrich(segs: seq<Segment>, available: bool, answers: seq<Option<seq<Enrichment>>>): seq<Enrichment> {
    if segs == [] then []
    else if !available then Fallback(segs)
    else EnrichedUpTo(segs, answers, BatchCount(|segs|))
  }

  /**
   * enrich_questions, with the availability of the model (a key is set and
   * the client library imports) and each call's outcome as inputs.
   */
  method EnrichQuestions(segs: seq<Segment>, context: Option<string>, available: bool,
                         answers: seq<Option<seq<Enrichment>>>)
    returns (results: seq<Enrichment>)
    ensures results == Enrich(segs, available, answers)
  {
    if segs == [] {
      return [];
    }
    if !available {
      results := FallbackEnrichment(segs);
      return;
    }
    results := EnrichBatches(segs, context, answers);
  }

  /** The batches, in order: range(0, len(segments), 15). */
  method EnrichBatches(segs: seq<Segment>, context: Option<string>, answers: seq<Option<seq<Enrichment>>>)
    returns (results: seq<Enrichment>)
    ensures results == EnrichedUpTo(segs, answers, BatchCount(|segs|))
  {
    results := [];
    var k := 0;
    while 15 * k < |segs|
      invariant k == 0 || 15 * (k - 1) < |segs|
      invariant results == EnrichedUpTo(segs, answers, k)
      decreases |segs| - 15 * k
    {
      var batchResults, prompt := EnrichBatch(segs, context, answers, k);
      results := results + batchResults;
      k := k + 1;
    }
    assert k == BatchCount(|segs|);
  }

  /** One batch: its prompt, and the model's answer when it is not empty, otherwise the rule-based enrichment. */
  method EnrichBatch(segs: seq<Segment>, context: Option<string>, answers: seq<Option<seq<Enrichment>>>, k: nat)
    returns (results: seq<Enrichment>, prompt: string)
    requires 15 * k < |segs|
    ensures results == BatchResult(segs, answers, k) && prompt == Prompt(Batch(segs, k), context)
  {
    var i := 15 * k;
    var batch := segs[i..Min(i + BatchSize, |segs|)];
    prompt := BuildUserPrompt(batch, context);
    var answer := AnswerAt(answers, k);
    if answer.Some? && answer.value != [] {
      results := answer.value;
    } else {
      results := FallbackEnrichment(batch);
    }
  }

  /** The first k batches, one after another, are the segments up to 15k. */
  lemma {:induction false} BatchesCover(segs: seq<Segment>, k: nat)
    requires k == 0 || 15 * (k - 1) < |segs|
    ensures Flatten(segs, k) == segs[..Min(15 * k, |segs|)]
  {
    if k > 0 {
      BatchesCover(segs, k - 1);
      assert segs[..Min(15 * k, |segs|)]
          == segs[..15 * (k - 1)] + segs[15 * (k - 1)..Min(15 * k, |segs|)];
    }
  }

  function Flatten(segs: seq<Segment>, k: nat): seq<Segment>
    requires k == 0 || 15 * (k - 1) < |segs|
  {
    if k == 0 then [] else Flatten(segs, k - 1) + Batch(segs, k - 1)
  }

  /** The batches are consecutive chunks that cover the segments exactly once. */
  lemma BatchesPartition(segs: seq<Segment>)
    ensures Flatten(segs, BatchCount(|segs|)) == segs
  {
    BatchesCover(segs, BatchCount(|segs|));
  }

  /** Every batch but the last holds exactly fifteen segments. */
  lemma BatchFull(segs: seq<Segment>, k: nat)
    requires k + 1 < BatchCount(|segs|)
    ensures |Batch(segs, k)| == BatchSize
  {
  }

  /** When no call gives a usable answer, the result is the rule-based enrichment of every segment. */
  lemma {:induction false} AllFailedUpTo(segs: seq<Segment>, answers: seq<Option<seq<Enrichment>>>, k: nat)
    requires k == 0 || 15 * (k - 1) < |segs|
    requires forall j :: 0 <= j < |answers| ==> answers[j].None? || answers[j].value == []
    ensures EnrichedUpTo(segs, answers, k) == Fallback(Flatten(segs, k))
  {
    if k > 0 {
      AllFailedUpTo(segs, answers, k - 1);
      FallbackConcat(Flatten(segs, k - 1), Batch(segs, k - 1));
    }
  }

  lemma AllFailed(segs: seq<Segment>, available: bool, answers: seq<Option<seq<Enrichment>>>)
    requires forall j :: 0 <= j < |answers| ==> answers[j].None? || answers[j].value == []
    ensures Enrich(segs, available, answers) == Fallback(segs)
  {
    if segs != [] && available {
      AllFailedUpTo(segs, answers, BatchCount(|segs|));
      BatchesPartition(segs);
    }
  }

  /** When every answer is as long as its batch, there is one enrichment per segment. */
  lemma {:induction false} MatchingAnswersUpTo(segs: seq<Segment>, answers: seq<Option<seq<Enrichment>>>, k: nat)
    requires k == 0 || 15 * (k - 1) < |segs|
    requires k <= |answers|
    requires forall j :: 0 <= j < k && answers[j].Some? ==> |answers[j].value| == |Batch(segs, j)|
    ensures |EnrichedUpTo(segs, answers, k)| == |Flatten(segs, k)|
  {
    if k > 0 {
      MatchingAnswersUpTo(segs, answers, k - 1);
      var a := AnswerAt(answers, k - 1);
      assert a == answers[k - 1];
      assert |BatchResult(segs, answers, k - 1)| == |Batch(segs, k - 1)|;
    }
  }
}
