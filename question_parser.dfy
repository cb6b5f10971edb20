/**
 * The question segmenter: a page's text is read line by line; each line
 * that opens with a question number starts a segment, roman-numeral
 * headers set the section, "OR" lines mark an alternative, marks-only
 * lines ("8 x 1 = 8") are skipped, and each segment carries its vertical
 * position on the page as a fraction of the page's characters.
 */
module QuestionParser {
  import opened Wrappers
  import opened Text
  import opened Patterns

  /** An image attached to a segment. */
  datatype SegmentImage = SegmentImage(
    imageUrl: Option<string>,
    imagePath: Option<string>,
    format: string,
    width: int,
    height: int,
    description: Option<string>,
    bbox: map<string, real>)

  /** RawQuestionSegment. */
  datatype Segment = Segment(
    questionNumber: Option<int>,
    section: Option<string>,
    pageNumber: int,
    text: string,
    yStart: Option<real>,
    yEnd: Option<real>,
    hasOr: bool,
    orText: Option<string>,
    images: seq<SegmentImage>)

  // ---------------------------------------------------------------------
  // Sections
  // ---------------------------------------------------------------------

  /** _detect_current_section: the numeral of a header line, or the section already in force. */
  function DetectSection(line: string, current: Option<string>): (r: Option<string>)
    ensures r == current || (r.Some? && r.value in Numerals)
    ensures SectionAt(line, 0).None? ==> r == current
  {
    var m := SectionAt(line, 0);
    if m.Some? then Some(m.value.0) else current
  }

  /** A line that opens with a numeral, a period and a space sets that section. */
  lemma SectionLine(n: string, rest: string, current: Option<string>)
    requires n in Numerals
    ensures DetectSection(n + ". " + rest, current) == Some(n)
  {
    var line := n + ". " + rest;
    assert forall k :: 0 <= k < |n| ==> line[k] == n[k];
    assert forall k :: 0 <= k < |n| ==> IsNumeralLetter(n[k]);
    assert line[|n|] == '.' && line[|n| + 1] == ' ';
    NumeralEndAt(line, 0, |n|);
    SkipSpaceAt(line, 0, 0);
    SkipSpaceAt(line, |n|, 0);
    assert line[0..|n|] == n;
  }

  // ---------------------------------------------------------------------
  // The OR split
  // ---------------------------------------------------------------------

  /** The index of the first OR line of ls at or after i. */
  function FirstOrFrom(ls: seq<string>, i: nat): (r: Option<nat>)
    requires i <= |ls|
    ensures r.Some? ==> i <= r.value < |ls|
    decreases |ls| - i
  {
    if i == |ls| then None
    else if IsOrLine(ls[i]) then Some(i)
    else FirstOrFrom(ls, i + 1)
  }

  /** The search finds an OR line with none before it, and finds nothing only when there is none. */
  lemma {:induction false} FirstOrFacts(ls: seq<string>, i: nat)
    requires i <= |ls|
    ensures var r := FirstOrFrom(ls, i);
      && (r.Some? ==> IsOrLine(ls[r.value]) && forall k :: i <= k < r.value ==> !IsOrLine(ls[k]))
      && (r.None? ==> forall k :: i <= k < |ls| ==> !IsOrLine(ls[k]))
    decreases |ls| - i
  {
    if i < |ls| && !IsOrLine(ls[i]) {
      FirstOrFacts(ls, i + 1);
    }
  }

  /** The first OR line from j is at i when i is an OR line and none comes before it. */
  lemma {:induction false} FirstOrAt(ls: seq<string>, j: nat, i: nat)
    requires j <= i < |ls| && IsOrLine(ls[i])
    requires forall k :: j <= k < i ==> !IsOrLine(ls[k])
    ensures FirstOrFrom(ls, j) == Some(i)
    decreases i - j
  {
    if j < i {
      FirstOrAt(ls, j + 1, i);
    }
  }

  /**
   * _split_or_alternative: a segment marked as having an alternative is
   * cut at its first OR line; both halves are stripped. Splitting the text
   * with the multi-line OR pattern cuts there too: the pattern's leading and
   * trailing \s* only reach into the whitespace around that line, which the
   * strip removes anyway.
   */
  function SplitOr(seg: Segment): Segment {
    if !seg.hasOr then seg
    else
      var ls := SplitOn(seg.text, '\n');
      var k := FirstOrFrom(ls, 0);
      if k.None? then seg
      else seg.(text := Strip(Join(ls[..k.value], "\n")), orText := Some(Strip(Join(ls[k.value + 1..], "\n"))))
  }

  /**
   * The split gives the stripped lines before the first OR line as the text
   * and the stripped lines after it as the alternative, and changes nothing else.
   */
  lemma SplitOrLines(seg: Segment, before: seq<string>, orLine: string, after: seq<string>)
    requires seg.hasOr && seg.text == Join(before + [orLine] + after, "\n")
    requires IsOrLine(orLine) && forall k :: 0 <= k < |before| ==> !IsOrLine(before[k])
    requires '\n' !in orLine
    requires forall k :: 0 <= k < |before| ==> '\n' !in before[k]
    requires forall k :: 0 <= k < |after| ==> '\n' !in after[k]
    ensures SplitOr(seg) == seg.(text := Strip(Join(before, "\n")), orText := Some(Strip(Join(after, "\n"))))
  {
    var ls := before + [orLine] + after;
    OrLineSplit(before, orLine, after);
    SplitOrAt(seg, ls, |before|);
  }

  /** The lines of a joined text, and where its first OR line is. */
  lemma OrLineSplit(before: seq<string>, orLine: string, after: seq<string>)
    requires IsOrLine(orLine) && forall k :: 0 <= k < |before| ==> !IsOrLine(before[k])
    requires '\n' !in orLine
    requires forall k :: 0 <= k < |before| ==> '\n' !in before[k]
    requires forall k :: 0 <= k < |after| ==> '\n' !in after[k]
    ensures var ls := before + [orLine] + after;
      && SplitOn(Join(ls, "\n"), '\n') == ls
      && FirstOrFrom(ls, 0) == Some(|before|)
      && ls[..|before|] == before && ls[|before| + 1..] == after
  {
    var ls := before + [orLine] + after;
    assert SplitOn(Join(ls, "\n"), '\n') == ls by {
      forall k | 0 <= k < |ls| ensures '\n' !in ls[k] {
        if k > |before| { assert ls[k] == after[k - |before| - 1]; }
      }
      SplitOnJoin(ls, '\n');
    }
    assert FirstOrFrom(ls, 0) == Some(|before|) by {
      forall k | 0 <= k < |before| ensures !IsOrLine(ls[k]) {
        assert ls[k] == before[k];
      }
      FirstOrAt(ls, 0, |before|);
    }
    assert ls[..|before|] == before;
    assert ls[|before| + 1..] == after;
  }

  lemma SplitOrAt(seg: Segment, ls: seq<string>, k: nat)
    requires seg.hasOr && SplitOn(seg.text, '\n') == ls && FirstOrFrom(ls, 0) == Some(k)
    ensures SplitOr(seg) == seg.(text := Strip(Join(ls[..k], "\n")), orText := Some(Strip(Join(ls[k + 1..], "\n"))))
  {
  }

  /** The split changes only the text and the alternative, and leaves a segment without the mark as it is. */
  lemma SplitOrKeeps(seg: Segment)
    ensures SplitOr(seg).(text := seg.text, orText := seg.orText) == seg
    ensures !seg.hasOr ==> SplitOr(seg) == seg
  {
  }

  // ---------------------------------------------------------------------
  // What the loop reads off a line
  // ---------------------------------------------------------------------

  /** A line that, stripped, is a whole marks header: it never enters a segment. */
  predicate MarksOnly(line: string) {
    Strip(line) != [] && IsMarksLine(Strip(line))
  }

  /** An OR line is not a marks header: it has no digit to start one. */
  lemma OrLineNotMarks(line: string)
    requires IsOrLine(line)
    ensures !MarksOnly(line)
  {
    var s := Strip(line);
    assert |s| == 2 && LowerChar(s[0]) == 'o';
    assert !IsDigit(s[0]);
    assert DigitsEnd(s, 0) == 0;
  }

  /** A question line holds a digit, so it is not blank. */
  lemma QuestionLineNotBlank(line: string)
    requires QuestionNumber(line).Some?
    ensures !IsBlank(line)
  {
    var q := SkipSpace(line, 0);
    var d := if q < |line| && line[q] == 'Q' then
               SkipSpace(line, if q + 1 < |line| && line[q + 1] == '.' then q + 2 else q + 1)
             else q;
    var e := DigitsEnd(line, d);
    assert d < e;
    assert IsDigit(line[d]);
  }

  /**
   * What the loop body reads off one line: the line, the section header it
   * opens with, its question number, whether it is an OR line and whether it
   * is a marks header.
   */
  datatype Line = Line(text: string, header: Option<string>, number: Option<nat>, isOr: bool, marksOnly: bool)

  /** The facts about a line that the loop relies on. */
  predicate Sound(l: Line) {
    && (l.header.Some? ==> l.header.value in Numerals)
    && (l.number.Some? ==> l.number.value < 1000 && !IsBlank(l.text))
    && (l.isOr ==> !l.marksOnly)
  }

  predicate AllSound(lines: seq<Line>) {
    forall i :: 0 <= i < |lines| ==> Sound(lines[i])
  }

  /** The patterns matched against one line. */
  function Classify(line: string): (l: Line)
    ensures l.text == line && Sound(l)
    ensures l.number.Some? <==> QuestionNumber(line).Some?
    ensures l.isOr <==> IsOrLine(line)
    ensures l.marksOnly <==> MarksOnly(line)
  {
    var qn := QuestionNumber(line);
    var isOr := IsOrLine(line);
    assert qn.Some? ==> !IsBlank(line) by {
      if qn.Some? { QuestionLineNotBlank(line); }
    }
    assert isOr ==> !MarksOnly(line) by {
      if isOr { OrLineNotMarks(line); }
    }
    Line(line, DetectSection(line, None), qn, isOr, MarksOnly(line))
  }

  function Classified(ls: seq<string>): (r: seq<Line>)
    ensures |r| == |ls| && AllSound(r)
    ensures forall i :: 0 <= i < |ls| ==> r[i] == Classify(ls[i])
  {
    seq(|ls|, i requires 0 <= i < |ls| => Classify(ls[i]))
  }

  // ---------------------------------------------------------------------
  // The line loop of parse_page_questions
  // ---------------------------------------------------------------------

  /** The loop's variables: the closed segments, the open one, the section in force and the character offset. */
  datatype LoopState = LoopState(segments: seq<Segment>, current: Option<Segment>, section: Option<string>, offset: nat)

  /** char_offset / total_chars. */
  function Frac(offset: nat, total: nat): real
    requires total >= 1
  {
    offset as real / total as real
  }

  /** The segment a question line opens. */
  function Opened(line: string, number: nat, section: Option<string>, page: int, frac: real): Segment {
    Segment(Some(number), section, page, Strip(line) + "\n", Some(frac), None, false, None, [])
  }

  /** One pass of the loop body over a line. */
  function Step(st: LoopState, l: Line, page: int, total: nat): LoopState
    requires total >= 1
  {
    var frac := Frac(st.offset, total);
    var section := if l.header.Some? then l.header else st.section;
    var next := st.offset + |l.text| + 1;
    if l.number.Some? then
      var closed := if st.current.Some? && !IsBlank(st.current.value.text)
                    then st.segments + [SplitOr(st.current.value.(yEnd := Some(frac)))]
                    else st.segments;
      LoopState(closed, Some(Opened(l.text, l.number.value, section, page, frac)), section, next)
    else if st.current.Some? && l.isOr then
      var cur := st.current.value;
      LoopState(st.segments, Some(cur.(text := cur.text + l.text + "\n", hasOr := true)), section, next)
    else if st.current.Some? && !l.marksOnly then
      var cur := st.current.value;
      LoopState(st.segments, Some(cur.(text := cur.text + l.text + "\n")), section, next)
    else LoopState(st.segments, st.current, section, next)
  }

  /** The loop's state after the first k lines. */
  function Run(lines: seq<Line>, k: nat, section: Option<string>, page: int, total: nat): LoopState
    requires k <= |lines| && total >= 1
  {
    if k == 0 then LoopState([], None, section, 0)
    else Step(Run(lines, k - 1, section, page, total), lines[k - 1], page, total)
  }

  /** After the loop: the open segment is closed at the bottom of the page. */
  function Finish(st: LoopState): (seq<Segment>, Option<string>) {
    if st.current.Some? && !IsBlank(st.current.value.text)
    then (st.segments + [SplitOr(st.current.value.(yEnd := Some(1.0)))], st.section)
    else (st.segments, st.section)
  }

  /** parse_page_questions: the segments of a page and the section in force at its end. */
  function ParsePage(text: string, page: int, section: Option<string>): (seq<Segment>, Option<string>) {
    if IsBlank(text) || HasInstructions(text) then ([], section)
    else
      var lines := Classified(SplitOn(text, '\n'));
      assert |text| >= 1;
      Finish(Run(lines, |lines|, section, page, |text|))
  }

  // ---------------------------------------------------------------------
  // The reference: one segment per question line
  // ---------------------------------------------------------------------

  /** The indices below k of the question lines, in order. */
  function QuestionLines(lines: seq<Line>, k: nat): (qs: seq<nat>)
    requires k <= |lines|
    ensures forall j :: 0 <= j < |qs| ==> qs[j] < k && lines[qs[j]].number.Some?
    ensures forall i, j :: 0 <= i < j < |qs| ==> qs[i] < qs[j]
  {
    if k == 0 then []
    else QuestionLines(lines, k - 1) + (if lines[k - 1].number.Some? then [k - 1] else [])
  }

  /** Every question line below k is listed. */
  lemma {:induction false} QuestionLinesComplete(lines: seq<Line>, k: nat, i: nat)
    requires i < k <= |lines| && lines[i].number.Some?
    ensures i in QuestionLines(lines, k)
  {
    if i < k - 1 {
      QuestionLinesComplete(lines, k - 1, i);
    }
  }

  /** The character offset of line k: every earlier line and its newline. */
  function Offset(lines: seq<Line>, k: nat): nat
    requires k <= |lines|
  {
    if k == 0 then 0 else Offset(lines, k - 1) + |lines[k - 1].text| + 1
  }

  /** The section in force after the first k lines: the last header among them. */
  function LastSection(lines: seq<Line>, k: nat, section: Option<string>): Option<string>
    requires k <= |lines|
  {
    if k == 0 then section
    else if lines[k - 1].header.Some? then lines[k - 1].header
    else LastSection(lines, k - 1, section)
  }

  /** The lines in [a, b) that are not marks headers, in order. */
  function Body(lines: seq<Line>, a: nat, b: nat): seq<string>
    requires a <= b <= |lines|
    decreases b - a
  {
    if b == a then []
    else Body(lines, a, b - 1) + (if lines[b - 1].marksOnly then [] else [lines[b - 1].text])
  }

  /** Some line in [a, b) is an OR line. */
  function HasOrIn(lines: seq<Line>, a: nat, b: nat): bool
    requires a <= b <= |lines|
    decreases b - a
  {
    if b == a then false else HasOrIn(lines, a, b - 1) || lines[b - 1].isOr
  }

  /** Each line followed by a newline. */
  function TextOf(ls: seq<string>): string {
    if ls == [] then [] else ls[0] + "\n" + TextOf(ls[1..])
  }

  /** The segment of the question line at start, with the lines up to k. */
  function OpenSegment(lines: seq<Line>, start: nat, k: nat, section: Option<string>, page: int, total: nat): Segment
    requires start < k <= |lines| && lines[start].number.Some? && total >= 1
  {
    Segment(lines[start].number, LastSection(lines, start + 1, section), page,
            Strip(lines[start].text) + "\n" + TextOf(Body(lines, start + 1, k)),
            Some(Frac(Offset(lines, start), total)), None, HasOrIn(lines, start + 1, k), None, [])
  }

  /** The segment of the question line at start, which runs until the line stop. */
  function ClosedSegment(lines: seq<Line>, start: nat, stop: nat, section: Option<string>, page: int, total: nat): Segment
    requires start < stop <= |lines| && lines[start].number.Some? && total >= 1
  {
    var yEnd := if stop == |lines| then 1.0 else Frac(Offset(lines, stop), total);
    SplitOr(OpenSegment(lines, start, stop, section, page, total).(yEnd := Some(yEnd)))
  }

  /** Where the j-th segment stops: at the next question line, or at the end of the page. */
  function StopOf(qs: seq<nat>, j: nat, n: nat): nat
    requires j < |qs|
  {
    if j + 1 < |qs| then qs[j + 1] else n
  }

  /**
   * The reference: one segment per question line, running to the next one,
   * holding the lines in between that are not marks headers.
   */
  function PageSegments(lines: seq<Line>, section: Option<string>, page: int, total: nat): (segs: seq<Segment>)
    requires total >= 1
    ensures |segs| == |QuestionLines(lines, |lines|)|
  {
    var qs := QuestionLines(lines, |lines|);
    seq(|qs|, j requires 0 <= j < |qs| =>
      assert qs[j] < StopOf(qs, j, |lines|) <= |lines|;
      ClosedSegment(lines, qs[j], StopOf(qs, j, |lines|), section, page, total))
  }

  // ---------------------------------------------------------------------
  // The loop against the reference
  // ---------------------------------------------------------------------

  /** The text a question line opens is never blank, whatever follows it. */
  lemma OpenedNotBlank(line: string, rest: string)
    requires !IsBlank(line)
    ensures !IsBlank(Strip(line) + "\n" + rest)
  {
    StripFacts(line);
    assert (Strip(line) + "\n" + rest)[0] == Strip(line)[0];
  }

  /** The section and the offset after the first k lines. */
  predicate Position(lines: seq<Line>, k: nat, st: LoopState, section: Option<string>)
    requires k <= |lines|
  {
    st.section == LastSection(lines, k, section) && st.offset == Offset(lines, k)
  }

  /** The closed segments after the first k lines: one per question line but the last. */
  predicate ClosedMatch(lines: seq<Line>, k: nat, segments: seq<Segment>, section: Option<string>, page: int, total: nat)
    requires k <= |lines| && total >= 1
  {
    var qs := QuestionLines(lines, k);
    && |segments| == (if qs == [] then 0 else |qs| - 1)
    && ClosedUpTo(lines, qs, segments, section, page, total)
  }

  /** Segment j runs from question line qs[j] to qs[j + 1]. */
  predicate ClosedUpTo(lines: seq<Line>, qs: seq<nat>, segments: seq<Segment>, section: Option<string>, page: int, total: nat)
    requires total >= 1
    requires forall j :: 0 <= j < |qs| ==> qs[j] < |lines| && lines[qs[j]].number.Some?
    requires forall i, j :: 0 <= i < j < |qs| ==> qs[i] < qs[j]
    requires |segments| >= |qs| - 1
  {
    forall j :: 0 <= j < |qs| - 1 ==> segments[j] == ClosedSegment(lines, qs[j], qs[j + 1], section, page, total)
  }

  /** The open segment after the first k lines: the last question line's, if any. */
  predicate OpenMatch(lines: seq<Line>, k: nat, current: Option<Segment>, section: Option<string>, page: int, total: nat)
    requires k <= |lines| && total >= 1
  {
    var qs := QuestionLines(lines, k);
    && (qs == [] ==> current.None?)
    && (qs != [] ==> current == Some(OpenSegment(lines, qs[|qs| - 1], k, section, page, total)))
  }

  /** What the loop holds after the first k lines, in terms of the reference. */
  predicate Matches(lines: seq<Line>, k: nat, st: LoopState, section: Option<string>, page: int, total: nat)
    requires k <= |lines| && total >= 1
  {
    && Position(lines, k, st, section)
    && ClosedMatch(lines, k, st.segments, section, page, total)
    && OpenMatch(lines, k, st.current, section, page, total)
  }

  lemma {:induction false} TextOfSnoc(ls: seq<string>, x: string)
    ensures TextOf(ls + [x]) == TextOf(ls) + x + "\n"
    decreases |ls|
  {
    if ls == [] {
      assert [] + [x] == [x];
    } else {
      assert (ls + [x])[1..] == ls[1..] + [x];
      TextOfSnoc(ls[1..], x);
    }
  }

  /** Adding a marks line to the open segment changes nothing. */
  lemma OpenStepMarks(lines: seq<Line>, start: nat, k: nat, section: Option<string>, page: int, total: nat)
    requires start < k < |lines| && lines[start].number.Some? && total >= 1
    requires lines[k].marksOnly && !lines[k].isOr
    ensures OpenSegment(lines, start, k + 1, section, page, total) == OpenSegment(lines, start, k, section, page, total)
  {
    assert Body(lines, start + 1, k + 1) == Body(lines, start + 1, k);
    assert HasOrIn(lines, start + 1, k + 1) == HasOrIn(lines, start + 1, k);
  }

  /** Adding any other line appends it, with its newline, and notes whether it is an OR line. */
  lemma OpenStepKept(lines: seq<Line>, start: nat, k: nat, section: Option<string>, page: int, total: nat)
    requires start < k < |lines| && lines[start].number.Some? && total >= 1
    requires !lines[k].marksOnly
    ensures var o := OpenSegment(lines, start, k, section, page, total);
      OpenSegment(lines, start, k + 1, section, page, total)
        == o.(text := o.text + lines[k].text + "\n", hasOr := o.hasOr || lines[k].isOr)
  {
    var line := lines[k].text;
    var b := Body(lines, start + 1, k);
    assert Body(lines, start + 1, k + 1) == b + [line];
    assert HasOrIn(lines, start + 1, k + 1) == (HasOrIn(lines, start + 1, k) || lines[k].isOr);
    TextOfSnoc(b, line);
    var p := Strip(lines[start].text) + "\n";
    assert p + TextOf(b + [line]) == p + TextOf(b) + line + "\n";
  }

  /** Every line moves the offset past itself and its newline, and a header sets the section. */
  lemma StepPosition(lines: seq<Line>, k: nat, st: LoopState, section: Option<string>, page: int, total: nat)
    requires k < |lines| && total >= 1 && Position(lines, k, st, section)
    ensures Position(lines, k + 1, Step(st, lines[k], page, total), section)
  {
  }

  /** Appending the segment of the last question line before k, which stops at k. */
  lemma ClosedSnoc(lines: seq<Line>, k: nat, segs: seq<Segment>, section: Option<string>, page: int, total: nat)
    requires k < |lines| && total >= 1 && lines[k].number.Some?
    requires ClosedMatch(lines, k, segs, section, page, total)
    requires QuestionLines(lines, k) != []
    ensures var qs := QuestionLines(lines, k);
      ClosedMatch(lines, k + 1, segs + [ClosedSegment(lines, qs[|qs| - 1], k, section, page, total)], section, page, total)
  {
    var qs := QuestionLines(lines, k);
    var qs' := QuestionLines(lines, k + 1);
    assert qs' == qs + [k];
    var last := qs[|qs| - 1];
    var segs' := segs + [ClosedSegment(lines, last, k, section, page, total)];
    forall j | 0 <= j < |qs'| - 1
      ensures segs'[j] == ClosedSegment(lines, qs'[j], qs'[j + 1], section, page, total)
    {
      if j < |qs| - 1 {
        assert qs'[j] == qs[j] && qs'[j + 1] == qs[j + 1];
      } else {
        assert qs'[j] == last && qs'[j + 1] == k;
      }
    }
  }

  /** A question line closes the open segment at its own position... */
  lemma StepQuestionClosed(lines: seq<Line>, k: nat, st: LoopState, section: Option<string>, page: int, total: nat)
    requires k < |lines| && total >= 1 && AllSound(lines) && lines[k].number.Some?
    requires Position(lines, k, st, section)
    requires ClosedMatch(lines, k, st.segments, section, page, total) && OpenMatch(lines, k, st.current, section, page, total)
    ensures ClosedMatch(lines, k + 1, Step(st, lines[k], page, total).segments, section, page, total)
  {
    var qs := QuestionLines(lines, k);
    assert QuestionLines(lines, k + 1) == qs + [k];
    if qs != [] {
      var last := qs[|qs| - 1];
      assert Sound(lines[last]);
      OpenedNotBlank(lines[last].text, TextOf(Body(lines, last + 1, k)));
      ClosedSnoc(lines, k, st.segments, section, page, total);
    }
  }

  /** ...and opens its own. */
  lemma StepQuestionOpen(lines: seq<Line>, k: nat, st: LoopState, section: Option<string>, page: int, total: nat)
    requires k < |lines| && total >= 1 && lines[k].number.Some?
    requires Position(lines, k, st, section)
    ensures OpenMatch(lines, k + 1, Step(st, lines[k], page, total).current, section, page, total)
  {
    var qs := QuestionLines(lines, k);
    assert QuestionLines(lines, k + 1) == qs + [k];
    assert Body(lines, k + 1, k + 1) == [];
    assert Strip(lines[k].text) + "\n" + [] == Strip(lines[k].text) + "\n";
  }

  /** Any other line extends the open segment, unless it is a marks header, or is dropped before the first question. */
  lemma StepOtherOpen(lines: seq<Line>, k: nat, st: LoopState, section: Option<string>, page: int, total: nat)
    requires k < |lines| && total >= 1 && lines[k].number.None? && Sound(lines[k])
    requires OpenMatch(lines, k, st.current, section, page, total)
    ensures OpenMatch(lines, k + 1, Step(st, lines[k], page, total).current, section, page, total)
  {
    var qs := QuestionLines(lines, k);
    assert QuestionLines(lines, k + 1) == qs;
    if qs != [] {
      var last := qs[|qs| - 1];
      if lines[k].marksOnly {
        OpenStepMarks(lines, last, k, section, page, total);
      } else {
        OpenStepKept(lines, last, k, section, page, total);
      }
    }
  }

  /** ...and closes nothing. */
  lemma StepOtherClosed(lines: seq<Line>, k: nat, st: LoopState, section: Option<string>, page: int, total: nat)
    requires k < |lines| && total >= 1 && lines[k].number.None?
    requires ClosedMatch(lines, k, st.segments, section, page, total)
    ensures ClosedMatch(lines, k + 1, Step(st, lines[k], page, total).segments, section, page, total)
  {
    assert QuestionLines(lines, k + 1) == QuestionLines(lines, k);
  }

  /** One pass of the loop body keeps the loop in step with the reference. */
  lemma StepMatches(lines: seq<Line>, k: nat, section: Option<string>, page: int, total: nat)
    requires 0 < k <= |lines| && total >= 1 && AllSound(lines)
    requires Matches(lines, k - 1, Run(lines, k - 1, section, page, total), section, page, total)
    ensures Matches(lines, k, Run(lines, k, section, page, total), section, page, total)
  {
    var st := Run(lines, k - 1, section, page, total);
    assert Run(lines, k, section, page, total) == Step(st, lines[k - 1], page, total);
    StepPosition(lines, k - 1, st, section, page, total);
    if lines[k - 1].number.Some? {
      StepQuestionClosed(lines, k - 1, st, section, page, total);
      StepQuestionOpen(lines, k - 1, st, section, page, total);
    } else {
      StepOtherClosed(lines, k - 1, st, section, page, total);
      StepOtherOpen(lines, k - 1, st, section, page, total);
    }
  }

  /** The loop agrees with the reference after every line. */
  lemma {:induction false} RunMatches(lines: seq<Line>, k: nat, section: Option<string>, page: int, total: nat)
    requires k <= |lines| && total >= 1 && AllSound(lines)
    ensures Matches(lines, k, Run(lines, k, section, page, total), section, page, total)
  {
    if k > 0 {
      RunMatches(lines, k - 1, section, page, total);
      StepMatches(lines, k, section, page, total);
    }
  }

  /** The reference is the segments closed at question lines, then the last one, closed at the end. */
  lemma PageSegmentsOf(lines: seq<Line>, segs: seq<Segment>, section: Option<string>, page: int, total: nat)
    requires total >= 1
    requires var qs := QuestionLines(lines, |lines|);
      qs != [] && |segs| == |qs| - 1 && ClosedUpTo(lines, qs, segs, section, page, total)
    ensures var qs := QuestionLines(lines, |lines|);
      segs + [ClosedSegment(lines, qs[|qs| - 1], |lines|, section, page, total)] == PageSegments(lines, section, page, total)
  {
    var qs := QuestionLines(lines, |lines|);
    var out := segs + [ClosedSegment(lines, qs[|qs| - 1], |lines|, section, page, total)];
    var ref := PageSegments(lines, section, page, total);
    forall j | 0 <= j < |qs|
      ensures out[j] == ref[j]
    {
      assert ref[j] == ClosedSegment(lines, qs[j], StopOf(qs, j, |lines|), section, page, total);
      if j < |qs| - 1 {
        assert StopOf(qs, j, |lines|) == qs[j + 1];
        assert out[j] == segs[j];
      } else {
        assert StopOf(qs, j, |lines|) == |lines|;
      }
    }
    assert |out| == |ref|;
  }

  /** After the last line, the open segment closes at the bottom of the page: the result is the reference. */
  lemma FinishOf(lines: seq<Line>, st: LoopState, section: Option<string>, page: int, total: nat)
    requires total >= 1 && AllSound(lines) && Matches(lines, |lines|, st, section, page, total)
    ensures Finish(st) == (PageSegments(lines, section, page, total), LastSection(lines, |lines|, section))
  {
    var n := |lines|;
    var qs := QuestionLines(lines, n);
    if qs != [] {
      var last := qs[|qs| - 1];
      assert Sound(lines[last]);
      OpenedNotBlank(lines[last].text, TextOf(Body(lines, last + 1, n)));
      assert Finish(st).0 == st.segments + [ClosedSegment(lines, last, n, section, page, total)];
      PageSegmentsOf(lines, st.segments, section, page, total);
    }
  }

  /**
   * parse_page_questions against the reference: a page with text and no
   * instructions gives one segment per question line, and the section of the
   * last header on the page (or the one carried in).
   */
  lemma ParsePageReference(text: string, page: int, section: Option<string>)
    requires !IsBlank(text) && !HasInstructions(text)
    ensures var lines := Classified(SplitOn(text, '\n'));
      && |text| >= 1
      && ParsePage(text, page, section) == (PageSegments(lines, section, page, |text|), LastSection(lines, |lines|, section))
  {
    var lines := Classified(SplitOn(text, '\n'));
    assert |text| >= 1;
    RunMatches(lines, |lines|, section, page, |text|);
    FinishOf(lines, Run(lines, |lines|, section, page, |text|), section, page, |text|);
  }

  /** parse_page_questions. */
  method ParsePageQuestions(text: string, page: int, section: Option<string>)
    returns (segments: seq<Segment>, last: Option<string>)
    ensures (segments, last) == ParsePage(text, page, section)
    ensures IsBlank(text) || HasInstructions(text) ==> segments == [] && last == section
    ensures !IsBlank(text) && !HasInstructions(text) ==>
      var lines := Classified(SplitOn(text, '\n'));
      |text| >= 1 && segments == PageSegments(lines, section, page, |text|) && last == LastSection(lines, |lines|, section)
  {
    if IsBlank(text) || HasInstructions(text) {
      return [], section;
    }
    ParsePageReference(text, page, section);
    segments, last := ScanLines(SplitOn(text, '\n'), page, section, |text|);
  }

  /** The loop of parse_page_questions over the lines of a page of total characters. */
  method ScanLines(lines: seq<string>, page: int, section: Option<string>, total: nat)
    returns (segments: seq<Segment>, last: Option<string>)
    requires total >= 1
    ensures (segments, last) == Finish(Run(Classified(lines), |lines|, section, page, total))
  {
    ghost var classified := Classified(lines);
    segments := [];
    var current: Option<Segment> := None;
    var offset: nat := 0;
    last := section;
    for k := 0 to |lines|
      invariant LoopState(segments, current, last, offset) == Run(classified, k, section, page, total)
    {
      var l := Classify(lines[k]);
      assert l == classified[k];
      segments, current, last, offset := Advance(segments, current, last, offset, l, page, total);
    }
    if current.Some? && !IsBlank(current.value.text) {
      segments := segments + [SplitOr(current.value.(yEnd := Some(1.0)))];
    }
  }

  /** The body of the loop over one line. */
  method Advance(segments: seq<Segment>, current: Option<Segment>, section: Option<string>, offset: nat, l: Line, page: int, total: nat)
    returns (segments': seq<Segment>, current': Option<Segment>, section': Option<string>, offset': nat)
    requires total >= 1
    ensures LoopState(segments', current', section', offset') == Step(LoopState(segments, current, section, offset), l, page, total)
  {
    segments', current', section' := segments, current, section;
    var frac := Frac(offset, total);
    if l.header.Some? {
      section' := l.header;
    }
    if l.number.Some? {
      if current.Some? && !IsBlank(current.value.text) {
        segments' := segments + [SplitOr(current.value.(yEnd := Some(frac)))];
      }
      current' := Some(Opened(l.text, l.number.value, section', page, frac));
    } else if current.Some? && l.isOr {
      current' := Some(current.value.(text := current.value.text + l.text + "\n", hasOr := true));
    } else if current.Some? && !l.marksOnly {
      current' := Some(current.value.(text := current.value.text + l.text + "\n"));
    }
    offset' := offset + |l.text| + 1;
  }

  // ---------------------------------------------------------------------
  // What the reference promises
  // ---------------------------------------------------------------------

  /** The section in force is the one carried in while no line is a header... */
  lemma {:induction false} NoHeaderKeepsSection(lines: seq<Line>, k: nat, section: Option<string>)
    requires k <= |lines|
    requires forall i :: 0 <= i < k ==> lines[i].header.None?
    ensures LastSection(lines, k, section) == section
  {
    if k > 0 {
      NoHeaderKeepsSection(lines, k - 1, section);
    }
  }

  /** ...and the numeral of the last header otherwise. */
  lemma {:induction false} LastHeaderSection(lines: seq<Line>, k: nat, i: nat, section: Option<string>)
    requires i < k <= |lines| && lines[i].header.Some?
    requires forall j :: i < j < k ==> lines[j].header.None?
    ensures LastSection(lines, k, section) == lines[i].header
  {
    if i < k - 1 {
      LastHeaderSection(lines, k - 1, i, section);
    }
  }

  /** What the j-th segment of a page records about its question line. */
  lemma SegmentFields(lines: seq<Line>, section: Option<string>, page: int, total: nat, j: nat)
    requires total >= 1 && AllSound(lines) && j < |QuestionLines(lines, |lines|)|
    ensures var qs := QuestionLines(lines, |lines|);
      var seg := PageSegments(lines, section, page, total)[j];
      && seg.questionNumber == Some(lines[qs[j]].number.value as int) && 0 <= seg.questionNumber.value < 1000
      && seg.pageNumber == page && seg.images == []
      && seg.section == LastSection(lines, qs[j] + 1, section)
      && seg.hasOr == HasOrIn(lines, qs[j] + 1, StopOf(qs, j, |lines|))
  {
    var qs := QuestionLines(lines, |lines|);
    var stop := StopOf(qs, j, |lines|);
    assert Sound(lines[qs[j]]);
    var yEnd := if stop == |lines| then 1.0 else Frac(Offset(lines, stop), total);
    var o := OpenSegment(lines, qs[j], stop, section, page, total).(yEnd := Some(yEnd));
    assert PageSegments(lines, section, page, total)[j] == SplitOr(o);
    SplitOrKeeps(o);
  }

  /** The j-th segment spans from its question line to the next one, or to the bottom of the page. */
  lemma SegmentSpan(lines: seq<Line>, section: Option<string>, page: int, total: nat, j: nat)
    requires total >= 1 && j < |QuestionLines(lines, |lines|)|
    ensures var qs := QuestionLines(lines, |lines|);
      var seg := PageSegments(lines, section, page, total)[j];
      && seg.yStart == Some(Frac(Offset(lines, qs[j]), total))
      && seg.yEnd == Some(if j + 1 < |qs| then Frac(Offset(lines, qs[j + 1]), total) else 1.0)
  {
    var qs := QuestionLines(lines, |lines|);
    var stop := StopOf(qs, j, |lines|);
    var yEnd := if stop == |lines| then 1.0 else Frac(Offset(lines, stop), total);
    var o := OpenSegment(lines, qs[j], stop, section, page, total).(yEnd := Some(yEnd));
    assert PageSegments(lines, section, page, total)[j] == SplitOr(o);
    SplitOrKeeps(o);
    if j + 1 < |qs| {
      assert stop == qs[j + 1] < |lines|;
    }
  }

  /** Offsets grow by at least one per line. */
  lemma {:induction false} OffsetGrows(lines: seq<Line>, i: nat, k: nat)
    requires i <= k <= |lines|
    ensures Offset(lines, i) + (k - i) <= Offset(lines, k)
    ensures i < k ==> Offset(lines, i) + |lines[i].text| + 1 <= Offset(lines, k)
    decreases k - i
  {
    if i < k {
      OffsetGrows(lines, i + 1, k);
    }
  }

  lemma FracBounds(a: nat, b: nat, total: nat)
    requires a < b && total >= 1
    ensures 0.0 <= Frac(a, total) < Frac(b, total)
  {
    var t := total as real;
    assert Frac(b, total) - Frac(a, total) == (b - a) as real / t;
  }

  lemma FracBelowOne(a: nat, total: nat)
    requires a < total
    ensures Frac(a, total) < 1.0
  {
    var f := Frac(a, total);
    var t := total as real;
    assert f * t == a as real;
    assert f * t < 1.0 * t;
  }

  /** A question line starts before the last character of the page, and before the next question line. */
  lemma QuestionOffsets(lines: seq<Line>, total: nat, j: nat)
    requires AllSound(lines) && Offset(lines, |lines|) == total + 1
    requires j < |QuestionLines(lines, |lines|)|
    ensures var qs := QuestionLines(lines, |lines|);
      && Offset(lines, qs[j]) < total
      && (j + 1 < |qs| ==> Offset(lines, qs[j]) < Offset(lines, qs[j + 1]) < total)
  {
    var qs := QuestionLines(lines, |lines|);
    var q := qs[j];
    assert Sound(lines[q]);
    assert |lines[q].text| >= 1;
    OffsetGrows(lines, q, |lines|);
    if j + 1 < |qs| {
      var q' := qs[j + 1];
      assert Sound(lines[q']);
      assert |lines[q'].text| >= 1;
      OffsetGrows(lines, q, q');
      OffsetGrows(lines, q', |lines|);
    }
  }

  /**
   * Positions on a page whose total is its number of characters: each
   * segment starts before it ends, both within [0, 1].
   */
  lemma SegmentPositions(lines: seq<Line>, section: Option<string>, page: int, total: nat, j: nat)
    requires total >= 1 && AllSound(lines) && Offset(lines, |lines|) == total + 1
    requires j < |QuestionLines(lines, |lines|)|
    ensures var seg := PageSegments(lines, section, page, total)[j];
      && seg.yStart.Some? && seg.yEnd.Some?
      && 0.0 <= seg.yStart.value < seg.yEnd.value <= 1.0
  {
    var qs := QuestionLines(lines, |lines|);
    SegmentSpan(lines, section, page, total, j);
    QuestionOffsets(lines, total, j);
    if j + 1 < |qs| {
      FracBounds(Offset(lines, qs[j]), Offset(lines, qs[j + 1]), total);
      FracBelowOne(Offset(lines, qs[j + 1]), total);
    } else {
      FracBounds(Offset(lines, qs[j]), total, total);
      FracBelowOne(Offset(lines, qs[j]), total);
    }
  }

  /** Each segment ends where the next one starts. */
  lemma SegmentsAdjacent(lines: seq<Line>, section: Option<string>, page: int, total: nat, j: nat)
    requires total >= 1 && j + 1 < |QuestionLines(lines, |lines|)|
    ensures var segs := PageSegments(lines, section, page, total);
      segs[j].yEnd == segs[j + 1].yStart
  {
    SegmentSpan(lines, section, page, total, j);
    SegmentSpan(lines, section, page, total, j + 1);
  }

  /** Line k starts after the first k lines of a text and their newlines. */
  lemma {:induction false} OffsetJoin(lines: seq<Line>, ls: seq<string>, k: nat)
    requires |lines| == |ls| && 1 <= k <= |ls|
    requires forall i :: 0 <= i < |ls| ==> lines[i].text == ls[i]
    ensures Offset(lines, k) == |Join(ls[..k], "\n")| + 1
  {
    if k == 1 {
      assert ls[..1] == [ls[0]];
    } else {
      OffsetJoin(lines, ls, k - 1);
      assert ls[..k] == ls[..k - 1] + [ls[k - 1]];
      JoinSnoc(ls[..k - 1], ls[k - 1], "\n");
    }
  }

  /** Past the last line of a page, the offset is the page's length plus one. */
  lemma PageOffset(text: string)
    ensures var lines := Classified(SplitOn(text, '\n'));
      Offset(lines, |lines|) == |text| + 1
  {
    var ls := SplitOn(text, '\n');
    OffsetJoin(Classified(ls), ls, |ls|);
    assert ls[..|ls|] == ls;
  }

  /**
   * The segments of a page: numbered by their question lines, on the given
   * page, without images, each starting before it ends within [0, 1] and
   * ending where the next one starts.
   */
  lemma ParsePageSegment(text: string, page: int, section: Option<string>, j: nat)
    requires j < |ParsePage(text, page, section).0|
    ensures var segs := ParsePage(text, page, section).0;
      && segs[j].pageNumber == page && segs[j].images == []
      && segs[j].questionNumber.Some? && 0 <= segs[j].questionNumber.value < 1000
      && segs[j].yStart.Some? && segs[j].yEnd.Some?
      && 0.0 <= segs[j].yStart.value < segs[j].yEnd.value <= 1.0
      && (j + 1 < |segs| ==> segs[j].yEnd == segs[j + 1].yStart)
      && (j + 1 == |segs| ==> segs[j].yEnd == Some(1.0))
  {
    if !IsBlank(text) && !HasInstructions(text) {
      var lines := Classified(SplitOn(text, '\n'));
      ParsePageReference(text, page, section);
      PageOffset(text);
      var qs := QuestionLines(lines, |lines|);
      SegmentFields(lines, section, page, |text|, j);
      SegmentSpan(lines, section, page, |text|, j);
      SegmentPositions(lines, section, page, |text|, j);
      if j + 1 < |qs| {
        SegmentsAdjacent(lines, section, page, |text|, j);
      }
    }
  }

  // ---------------------------------------------------------------------
  // The text of a segment
  // ---------------------------------------------------------------------

  /** A line marked as an OR line is one. */
  predicate OrFaithful(lines: seq<Line>) {
    forall i :: 0 <= i < |lines| && lines[i].isOr ==> IsOrLine(lines[i].text)
  }

  /** A marks header is marked as one. */
  predicate MarksFaithful(lines: seq<Line>) {
    forall i :: 0 <= i < |lines| && MarksOnly(lines[i].text) ==> lines[i].marksOnly
  }

  /** No line holds a newline. */
  predicate SingleLines(lines: seq<Line>) {
    forall i :: 0 <= i < |lines| ==> '\n' !in lines[i].text
  }

  /** The lines of a page's text carry their own OR and marks status, and hold no newline. */
  lemma ClassifiedLines(text: string)
    ensures var lines := Classified(SplitOn(text, '\n'));
      OrFaithful(lines) && MarksFaithful(lines) && SingleLines(lines)
  {
  }

  /** No marks header enters a segment's lines... */
  lemma {:induction false} BodyNoMarks(lines: seq<Line>, a: nat, b: nat)
    requires a <= b <= |lines| && MarksFaithful(lines)
    ensures forall t :: 0 <= t < |Body(lines, a, b)| ==> !MarksOnly(Body(lines, a, b)[t])
    decreases b - a
  {
    if a < b {
      BodyNoMarks(lines, a, b - 1);
      var l := lines[b - 1];
      var prev := Body(lines, a, b - 1);
      var body := Body(lines, a, b);
      forall t | 0 <= t < |body|
        ensures !MarksOnly(body[t])
      {
        if t < |prev| {
          assert body[t] == prev[t];
        } else {
          assert body[t] == l.text && !l.marksOnly && !MarksOnly(l.text);
        }
      }
    }
  }

  /** ...and every other line between the question lines does, in order. */
  lemma {:induction false} BodyKeeps(lines: seq<Line>, a: nat, b: nat, i: nat)
    requires a <= i < b <= |lines| && !lines[i].marksOnly
    ensures lines[i].text in Body(lines, a, b)
    decreases b - a
  {
    if i < b - 1 {
      BodyKeeps(lines, a, b - 1, i);
    }
  }

  lemma {:induction false} BodyNoNewline(lines: seq<Line>, a: nat, b: nat)
    requires a <= b <= |lines| && SingleLines(lines)
    ensures forall t :: 0 <= t < |Body(lines, a, b)| ==> '\n' !in Body(lines, a, b)[t]
    decreases b - a
  {
    if a < b {
      BodyNoNewline(lines, a, b - 1);
    }
  }

  /** When an OR line lies in [a, b), one of the kept lines is an OR line: the t-th. */
  lemma {:induction false} BodyHasOr(lines: seq<Line>, a: nat, b: nat) returns (t: nat)
    requires a <= b <= |lines| && OrFaithful(lines) && AllSound(lines) && HasOrIn(lines, a, b)
    ensures t < |Body(lines, a, b)| && IsOrLine(Body(lines, a, b)[t])
    decreases b - a
  {
    var l := lines[b - 1];
    if l.isOr {
      assert Sound(l) && IsOrLine(l.text);
      t := |Body(lines, a, b)| - 1;
    } else {
      t := BodyHasOr(lines, a, b - 1);
      assert Body(lines, a, b)[t] == Body(lines, a, b - 1)[t];
    }
  }

  /** Each line followed by a newline is the lines and one empty line, joined. */
  lemma {:induction false} TextOfJoin(ls: seq<string>)
    ensures TextOf(ls) == Join(ls + [""], "\n")
    decreases |ls|
  {
    if ls != [] {
      TextOfJoin(ls[1..]);
      assert (ls + [""])[1..] == ls[1..] + [""];
    }
  }

  /** The lines of a segment's text before the split: its first line, the kept lines, and an empty tail. */
  lemma TextLines(h: string, body: seq<string>)
    requires '\n' !in h && forall t :: 0 <= t < |body| ==> '\n' !in body[t]
    ensures SplitOn(h + "\n" + TextOf(body), '\n') == [h] + body + [""]
  {
    var ls := [h] + body + [""];
    TextJoin(h, body);
    forall t | 0 <= t < |ls|
      ensures '\n' !in ls[t]
    {
      if 0 < t < |ls| - 1 {
        assert ls[t] == body[t - 1];
      }
    }
    SplitOnJoin(ls, '\n');
  }

  lemma TextJoin(head: string, body: seq<string>)
    ensures Join([head] + body + [""], "\n") == head + "\n" + TextOf(body)
  {
    var ls := [head] + body + [""];
    TextOfJoin(body);
    assert ls[0] == head && ls[1..] == body + [""];
  }

  /** A segment with the mark whose t-th line is an OR line is cut at its first one. */
  lemma SplitOrOf(o: Segment, ls: seq<string>, t: nat)
    requires o.hasOr && SplitOn(o.text, '\n') == ls && t < |ls| && IsOrLine(ls[t])
    ensures FirstOrFrom(ls, 0).Some?
    ensures var i := FirstOrFrom(ls, 0).value;
      SplitOr(o) == o.(text := Strip(Join(ls[..i], "\n")), orText := Some(Strip(Join(ls[i + 1..], "\n"))))
  {
    FirstOrFacts(ls, 0);
  }

  /** The j-th segment before its split: the stripped question line and the kept lines, each with its newline. */
  lemma SegmentBeforeSplit(lines: seq<Line>, section: Option<string>, page: int, total: nat, j: nat) returns (o: Segment)
    requires total >= 1 && j < |QuestionLines(lines, |lines|)|
    ensures var qs := QuestionLines(lines, |lines|);
      var body := Body(lines, qs[j] + 1, StopOf(qs, j, |lines|));
      && PageSegments(lines, section, page, total)[j] == SplitOr(o)
      && o.text == Strip(lines[qs[j]].text) + "\n" + TextOf(body)
      && o.hasOr == HasOrIn(lines, qs[j] + 1, StopOf(qs, j, |lines|)) && o.orText.None?
  {
    var qs := QuestionLines(lines, |lines|);
    var start, stop := qs[j], StopOf(qs, j, |lines|);
    var yEnd := if stop == |lines| then 1.0 else Frac(Offset(lines, stop), total);
    o := OpenSegment(lines, start, stop, section, page, total).(yEnd := Some(yEnd));
    assert PageSegments(lines, section, page, total)[j] == SplitOr(o);
  }

  /** A segment with the mark whose text is a first line and kept lines, the t-th of them an OR line, is cut at the first OR line. */
  lemma SplitTextOr(o: Segment, h: string, body: seq<string>, t: nat)
    requires o.hasOr && o.text == h + "\n" + TextOf(body)
    requires '\n' !in h && forall k :: 0 <= k < |body| ==> '\n' !in body[k]
    requires t < |body| && IsOrLine(body[t])
    ensures var ls := [h] + body + [""];
      && FirstOrFrom(ls, 0).Some?
      && SplitOr(o) == o.(text := Strip(Join(ls[..FirstOrFrom(ls, 0).value], "\n")),
                          orText := Some(Strip(Join(ls[FirstOrFrom(ls, 0).value + 1..], "\n"))))
  {
    var ls := [h] + body + [""];
    TextLines(h, body);
    assert ls[t + 1] == body[t];
    SplitOrOf(o, ls, t + 1);
  }

  /**
   * The text of the j-th segment: without an OR line among its lines it is
   * the stripped question line and the kept lines, each with its newline;
   * with one, those lines are cut at the first OR line, the part before it
   * stripped into the text and the part after it into the alternative.
   */
  lemma SegmentText(lines: seq<Line>, section: Option<string>, page: int, total: nat, j: nat)
    requires total >= 1 && AllSound(lines) && OrFaithful(lines) && SingleLines(lines)
    requires j < |QuestionLines(lines, |lines|)|
    ensures var qs := QuestionLines(lines, |lines|);
      var seg := PageSegments(lines, section, page, total)[j];
      var body := Body(lines, qs[j] + 1, StopOf(qs, j, |lines|));
      var ls := [Strip(lines[qs[j]].text)] + body + [""];
      && (!seg.hasOr ==> seg.text == Strip(lines[qs[j]].text) + "\n" + TextOf(body) && seg.orText.None?)
      && (seg.hasOr ==>
            && FirstOrFrom(ls, 0).Some?
            && seg.text == Strip(Join(ls[..FirstOrFrom(ls, 0).value], "\n"))
            && seg.orText == Some(Strip(Join(ls[FirstOrFrom(ls, 0).value + 1..], "\n"))))
  {
    var qs := QuestionLines(lines, |lines|);
    var start, stop := qs[j], StopOf(qs, j, |lines|);
    var o := SegmentBeforeSplit(lines, section, page, total, j);
    BodyNoNewline(lines, start + 1, stop);
    if o.hasOr {
      var t := BodyHasOr(lines, start + 1, stop);
      StripChars(lines[start].text, '\n');
      SplitTextOr(o, Strip(lines[start].text), Body(lines, start + 1, stop), t);
    } else {
      SplitOrKeeps(o);
    }
  }
}
