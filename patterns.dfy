/**
 * The regular expressions of the question-bank pipeline, each written out
 * as a scanner with the result Python's re module gives. Quantifiers are
 * greedy and alternatives are tried in order; in every pattern here the
 * path that can succeed is forced (a run of whitespace is followed by a
 * letter or a punctuation mark, a run of digits by a non-digit), so each
 * scanner follows that one path. Case-insensitive patterns are matched on
 * the lower-cased text.
 */
module Patterns {
  import opened Wrappers
  import opened Text

  /** The first position at or after p that is not whitespace, or |t|. */
  function SkipSpace(t: string, p: nat): (q: nat)
    requires p <= |t|
    ensures p <= q <= |t|
    ensures q < |t| ==> !IsSpace(t[q])
    decreases |t| - p
  {
    if p < |t| && IsSpace(t[p]) then SkipSpace(t, p + 1) else p
  }

  /** The end of the run of digits that starts at p. */
  function DigitsEnd(t: string, p: nat): (q: nat)
    requires p <= |t|
    ensures p <= q <= |t|
    ensures forall k :: p <= k < q ==> IsDigit(t[k])
    ensures q < |t| ==> !IsDigit(t[q])
    decreases |t| - p
  {
    if p < |t| && IsDigit(t[p]) then DigitsEnd(t, p + 1) else p
  }

  /** A run of exactly n digits at p ends at p + n. */
  lemma {:induction false} DigitsEndAt(t: string, p: nat, n: nat)
    requires p + n <= |t| && forall k :: p <= k < p + n ==> IsDigit(t[k])
    requires p + n == |t| || !IsDigit(t[p + n])
    ensures DigitsEnd(t, p) == p + n
    decreases n
  {
    if n > 0 {
      DigitsEndAt(t, p + 1, n - 1);
    }
  }

  /** A run of exactly n whitespace characters at p ends at p + n. */
  lemma {:induction false} SkipSpaceAt(t: string, p: nat, n: nat)
    requires p + n <= |t| && forall k :: p <= k < p + n ==> IsSpace(t[k])
    requires p + n == |t| || !IsSpace(t[p + n])
    ensures SkipSpace(t, p) == p + n
    decreases n
  {
    if n > 0 {
      SkipSpaceAt(t, p + 1, n - 1);
    }
  }

  /** str.isdigit() run as int(): the value of t[p..q]. */
  function ValueOf(t: string, p: nat, q: nat): nat
    requires p <= q <= |t| && forall k :: p <= k < q ==> IsDigit(t[k])
  {
    assert AllDigits(t[p..q]) by {
      assert forall i :: 0 <= i < q - p ==> t[p..q][i] == t[p + i];
    }
    DigitsValue(t[p..q])
  }

  // ---------------------------------------------------------------------
  // Section headers: ^\s*(I{1,3}|IV|VI{0,3}|IX|X)\s*[.)]\s+
  // ---------------------------------------------------------------------

  predicate IsNumeralLetter(c: char) { c == 'I' || c == 'V' || c == 'X' }

  /** The numerals the header alternatives accept, and the ones _ROMAN_SECTIONS knows. */
  const Numerals: seq<string> := ["I", "II", "III", "IV", "V", "VI", "VII", "VIII", "IX", "X"]

  function NumeralEnd(t: string, p: nat): (q: nat)
    requires p <= |t|
    ensures p <= q <= |t|
    ensures q < |t| ==> !IsNumeralLetter(t[q])
    decreases |t| - p
  {
    if p < |t| && IsNumeralLetter(t[p]) then NumeralEnd(t, p + 1) else p
  }

  /** A run of exactly n numeral letters at p ends at p + n. */
  lemma {:induction false} NumeralEndAt(t: string, p: nat, n: nat)
    requires p + n <= |t| && forall k :: p <= k < p + n ==> IsNumeralLetter(t[k])
    requires p + n == |t| || !IsNumeralLetter(t[p + n])
    ensures NumeralEnd(t, p) == p + n
    decreases n
  {
    if n > 0 {
      NumeralEndAt(t, p + 1, n - 1);
    }
  }

  /**
   * A header match starting at p: the numeral and where the match ends.
   * A shorter numeral would be followed by a numeral letter, where \s*[.)]
   * fails, so the numeral is the whole run of I, V and X.
   */
  function SectionAt(t: string, p: nat): (r: Option<(string, nat)>)
    ensures r.Some? ==> r.value.0 in Numerals && p < r.value.1 <= |t|
  {
    if p > |t| then None
    else
      var q := SkipSpace(t, p);
      var n := NumeralEnd(t, q);
      var s := SkipSpace(t, n);
      if t[q..n] in Numerals && s + 1 < |t| && (t[s] == '.' || t[s] == ')') && IsSpace(t[s + 1])
      then Some((t[q..n], SkipSpace(t, s + 1)))
      else None
  }

  /** MULTILINE ^: the start of the text or just after a newline. */
  predicate LineStart(t: string, p: nat) { p == 0 || (0 < p <= |t| && t[p - 1] == '\n') }

  datatype Header = Header(numeral: string, start: nat, end: nat)

  /** finditer of the header pattern from p: matches start at line starts and do not overlap. */
  function HeadersFrom(t: string, p: nat): (hs: seq<Header>)
    requires p <= |t|
    ensures forall i :: 0 <= i < |hs| ==>
      p <= hs[i].start < hs[i].end <= |t| && hs[i].numeral in Numerals && LineStart(t, hs[i].start)
    ensures forall i, j :: 0 <= i < j < |hs| ==> hs[i].end <= hs[j].start
    decreases |t| - p
  {
    var m := if LineStart(t, p) then SectionAt(t, p) else None;
    if m.Some? then
      var rest := HeadersFrom(t, m.value.1);
      [Header(m.value.0, p, m.value.1)] + rest
    else if p == |t| then []
    else HeadersFrom(t, p + 1)
  }

  // ---------------------------------------------------------------------
  // Question numbers: ^\s*(?:Q\.?\s*)?(\d{1,3})\s*[.)]\s
  // ---------------------------------------------------------------------

  /** The number a question line opens with, when the line matches. */
  function QuestionNumber(line: string): (r: Option<nat>)
    ensures r.Some? ==> r.value < 1000
  {
    var q := SkipSpace(line, 0);
    var d := if q < |line| && line[q] == 'Q' then
               SkipSpace(line, if q + 1 < |line| && line[q + 1] == '.' then q + 2 else q + 1)
             else q;
    var e := DigitsEnd(line, d);
    var s := SkipSpace(line, e);
    if 1 <= e - d <= 3 && s + 1 < |line| && (line[s] == '.' || line[s] == ')') && IsSpace(line[s + 1])
    then
      var v := ValueOf(line, d, e);
      assert v < 1000 by { DigitsBound(line[d..e]); }
      Some(v)
    else None
  }

  function Pow10(n: nat): nat { if n == 0 then 1 else 10 * Pow10(n - 1) }

  /** A run of n digits is below 10^n. */
  lemma {:induction false} DigitsBelow(s: string)
    requires AllDigits(s)
    ensures DigitsValue(s) < Pow10(|s|)
  {
    if s != [] {
      DigitsBelow(s[..|s| - 1]);
    }
  }

  /** A run of at most three digits is below 1000. */
  lemma DigitsBound(s: string)
    requires AllDigits(s) && |s| <= 3
    ensures DigitsValue(s) < 1000
  {
    DigitsBelow(s);
  }

  /** A number below 1000 has at most three digits. */
  lemma ShortNumber(n: nat)
    requires n < 1000
    ensures |NatToString(n)| <= 3
  {
    if n >= 10 {
      assert NatToString(n) == NatToString(n / 10) + [DigitChar(n % 10)];
      if n / 10 >= 10 {
        assert NatToString(n / 10) == NatToString(n / 100) + [DigitChar(n / 10 % 10)];
      }
    }
  }

  /** A line that opens with e digits, a period and a space is a question line with that number. */
  lemma QuestionNumberParts(line: string, e: nat)
    requires 1 <= e <= 3 && e + 1 < |line|
    requires forall k :: 0 <= k < e ==> IsDigit(line[k])
    requires line[e] == '.' && line[e + 1] == ' '
    ensures QuestionNumber(line) == Some(ValueOf(line, 0, e))
  {
    SkipSpaceAt(line, 0, 0);
    DigitsEndAt(line, 0, e);
    SkipSpaceAt(line, e, 0);
  }

  /** A line that starts with a number below 1000, a period and a space opens that question. */
  lemma QuestionNumberOf(n: nat, rest: string)
    requires n < 1000
    ensures QuestionNumber(NatToString(n) + ". " + rest) == Some(n)
  {
    var d := NatToString(n);
    var line := d + ". " + rest;
    ShortNumber(n);
    assert line[0..|d|] == d;
    ValueOfNumber(line, 0, n);
    assert line[|d|] == '.' && line[|d| + 1] == ' ';
    QuestionNumberParts(line, |d|);
  }

  /** The value of a slice that is a printed number. */
  lemma ValueOfNumber(s: string, p: nat, n: nat)
    requires p + |NatToString(n)| <= |s| && s[p..p + |NatToString(n)|] == NatToString(n)
    ensures forall k :: p <= k < p + |NatToString(n)| ==> IsDigit(s[k])
    ensures ValueOf(s, p, p + |NatToString(n)|) == n
  {
    var d := NatToString(n);
    assert forall k :: p <= k < p + |d| ==> s[k] == s[p..p + |d|][k - p] == d[k - p];
    NatToStringValue(n);
  }

  // ---------------------------------------------------------------------
  // OR lines: ^\s*OR\s*$ (IGNORECASE), on one line
  // ---------------------------------------------------------------------

  /** A line that holds only "OR", in any case, between whitespace. */
  predicate IsOrLine(line: string) { Lower(Strip(line)) == "or" }

  // ---------------------------------------------------------------------
  // Marks headers: (\d+)\s+[x×]?\s*(\d+)\s*=\s*(\d+)
  // ---------------------------------------------------------------------

  /** The three numbers of a marks header: how many questions, marks each, and the total. */
  datatype Marks = Marks(count: nat, each: nat, total: nat)

  /**
   * (\d+)\s+[x×]?\s*(\d+) at p: where the first number ends and where the
   * second one starts and ends.
   */
  function MarksFactors(t: string, p: nat): (r: Option<(nat, nat, nat)>)
    ensures r.Some? ==> p < r.value.0 < r.value.1 < r.value.2 <= |t|
    ensures r.Some? ==> (forall k :: p <= k < r.value.0 ==> IsDigit(t[k])) && (forall k :: r.value.1 <= k < r.value.2 ==> IsDigit(t[k]))
  {
    if p > |t| then None
    else
      var e1 := DigitsEnd(t, p);
      var w := SkipSpace(t, e1);
      var x := if w < |t| && (t[w] == 'x' || t[w] == '×') then w + 1 else w;
      var d2 := SkipSpace(t, x);
      var e2 := DigitsEnd(t, d2);
      if e1 > p && w > e1 && e2 > d2 then Some((e1, d2, e2)) else None
  }

  /** \s*=\s*(\d+) at e: where the total starts and ends. */
  function MarksTotal(t: string, e: nat): (r: Option<(nat, nat)>)
    ensures r.Some? ==> e < r.value.0 < r.value.1 <= |t| && forall k :: r.value.0 <= k < r.value.1 ==> IsDigit(t[k])
  {
    if e > |t| then None
    else
      var w := SkipSpace(t, e);
      if w < |t| && t[w] == '=' then
        var d := SkipSpace(t, w + 1);
        var f := DigitsEnd(t, d);
        if f > d then Some((d, f)) else None
      else None
  }

  /** A marks-header match starting at p: its numbers and where the match ends. */
  function MarksAt(t: string, p: nat): (r: Option<(Marks, nat)>)
    ensures r.Some? ==> p < r.value.1 <= |t|
  {
    var f := MarksFactors(t, p);
    if f.None? then None
    else
      var g := MarksTotal(t, f.value.2);
      if g.None? then None
      else Some((Marks(ValueOf(t, p, f.value.0), ValueOf(t, f.value.1, f.value.2), ValueOf(t, g.value.0, g.value.1)), g.value.1))
  }

  /** fullmatch of the marks header: the match at 0 reaches the end. */
  predicate IsMarksLine(s: string) {
    var m := MarksAt(s, 0);
    m.Some? && m.value.1 == |s|
  }

  /** search: the leftmost start at or after p where the marks header matches. */
  function MarksFrom(t: string, p: nat): (r: Option<nat>)
    requires p <= |t|
    ensures r.Some? ==> p <= r.value <= |t| && MarksAt(t, r.value).Some?
    decreases |t| - p
  {
    if MarksAt(t, p).Some? then Some(p)
    else if p == |t| then None
    else MarksFrom(t, p + 1)
  }

  /** search of the marks header: the numbers of the leftmost match. */
  function MarksSearch(t: string): Option<Marks> {
    var m := MarksFrom(t, 0);
    if m.Some? then Some(MarksAt(t, m.value).value.0) else None
  }

  lemma FactorsParts(s: string, i1: nat, i3: nat)
    requires 0 < i1 && i1 + 3 < i3 <= |s|
    requires forall k :: 0 <= k < i1 ==> IsDigit(s[k])
    requires s[i1] == ' ' && s[i1 + 1] == 'x' && s[i1 + 2] == ' '
    requires forall k :: i1 + 3 <= k < i3 ==> IsDigit(s[k])
    requires i3 == |s| || !IsDigit(s[i3])
    ensures MarksFactors(s, 0) == Some((i1, i1 + 3, i3))
  {
    DigitsEndAt(s, 0, i1);
    assert DigitsEnd(s, 0) == i1;
    SkipSpaceAt(s, i1, 1);
    assert SkipSpace(s, i1) == i1 + 1;
    SkipSpaceAt(s, i1 + 2, 1);
    assert SkipSpace(s, i1 + 2) == i1 + 3;
    DigitsEndAt(s, i1 + 3, i3 - i1 - 3);
    assert DigitsEnd(s, i1 + 3) == i3;
  }

  lemma TotalParts(s: string, i3: nat)
    requires i3 + 3 < |s|
    requires s[i3] == ' ' && s[i3 + 1] == '=' && s[i3 + 2] == ' '
    requires forall k :: i3 + 3 <= k < |s| ==> IsDigit(s[k])
    ensures MarksTotal(s, i3) == Some((i3 + 3, |s|))
  {
    SkipSpaceAt(s, i3, 1);
    SkipSpaceAt(s, i3 + 2, 1);
    DigitsEndAt(s, i3 + 3, |s| - i3 - 3);
  }

  /** A match is the two parts' match, read off their positions. */
  lemma MarksAtOf(t: string, p: nat)
    requires MarksFactors(t, p).Some? && MarksTotal(t, MarksFactors(t, p).value.2).Some?
    ensures var f := MarksFactors(t, p).value;
      var g := MarksTotal(t, f.2).value;
      MarksAt(t, p) == Some((Marks(ValueOf(t, p, f.0), ValueOf(t, f.1, f.2), ValueOf(t, g.0, g.1)), g.1))
  {
  }

  /** A line laid out as digits, " x ", digits, " = ", digits: the match covers it all. */
  lemma MarksAtParts(s: string, i1: nat, i3: nat)
    requires 0 < i1 && i1 + 3 < i3 && i3 + 3 < |s|
    requires forall k :: 0 <= k < i1 ==> IsDigit(s[k])
    requires s[i1] == ' ' && s[i1 + 1] == 'x' && s[i1 + 2] == ' '
    requires forall k :: i1 + 3 <= k < i3 ==> IsDigit(s[k])
    requires s[i3] == ' ' && s[i3 + 1] == '=' && s[i3 + 2] == ' '
    requires forall k :: i3 + 3 <= k < |s| ==> IsDigit(s[k])
    ensures MarksAt(s, 0) == Some((Marks(ValueOf(s, 0, i1), ValueOf(s, i1 + 3, i3), ValueOf(s, i3 + 3, |s|)), |s|))
  {
    FactorsParts(s, i1, i3);
    TotalParts(s, i3);
    MarksAtOf(s, 0);
  }

  // ---------------------------------------------------------------------
  // Phrases: words separated by \s+, searched case-insensitively
  // ---------------------------------------------------------------------

  /** Where the words ws, separated by runs of whitespace, end when they start at p. */
  function WordsAt(t: string, p: nat, ws: seq<string>): (r: Option<nat>)
    ensures r.Some? ==> p < r.value <= |t|
    decreases |ws|
  {
    if ws == [] || ws[0] == [] || p + |ws[0]| > |t| || t[p..p + |ws[0]|] != ws[0] then None
    else if |ws| == 1 then Some(p + |ws[0]|)
    else
      var e := p + |ws[0]|;
      var q := SkipSpace(t, e);
      if q == e then None else WordsAt(t, q, ws[1..])
  }

  /** One of the phrases starts at p. */
  predicate PhraseAt(t: string, p: nat, phrases: seq<seq<string>>) {
    exists i :: 0 <= i < |phrases| && WordsAt(t, p, phrases[i]).Some?
  }

  /** re.search with IGNORECASE of the alternation of the phrases. */
  predicate Mentions(text: string, phrases: seq<seq<string>>) {
    exists p :: 0 <= p <= |text| && PhraseAt(Lower(text), p, phrases)
  }

  /**
   * in\s+the\s+figure | as\s+shown | the\s+(?:given\s+)?(?:figure|diagram|graph),
   * with the optional "given" spelt out as two alternatives.
   */
  const FigurePhrases: seq<seq<string>> := [
    ["in", "the", "figure"], ["as", "shown"],
    ["the", "given", "figure"], ["the", "given", "diagram"], ["the", "given", "graph"],
    ["the", "figure"], ["the", "diagram"], ["the", "graph"]]

  /** General\s+Instructions | Instructions\s+to\s+the\s+candidate */
  const InstructionPhrases: seq<seq<string>> := [
    ["general", "instructions"], ["instructions", "to", "the", "candidate"]]

  predicate HasFigureReference(text: string) { Mentions(text, FigurePhrases) }

  predicate HasInstructions(text: string) { Mentions(text, InstructionPhrases) }

  /** Lower-casing the text changes nothing the case-insensitive search sees. */
  lemma MentionsLower(text: string, phrases: seq<seq<string>>)
    ensures Mentions(Lower(text), phrases) == Mentions(text, phrases)
  {
    LowerIdempotent(text);
  }

  /** "as shown" written at p is found there. */
  lemma AsShownAt(lt: string, p: nat)
    requires p + 8 <= |lt| && lt[p..p + 8] == "as shown"
    ensures WordsAt(lt, p, ["as", "shown"]) == Some(p + 8)
  {
    var w := lt[p..p + 8];
    assert lt[p..p + 2] == w[..2] == "as";
    assert lt[p + 3..p + 8] == w[3..] == "shown";
    assert lt[p + 2] == w[2] && lt[p + 3] == w[3];
    SkipSpaceAt(lt, p + 2, 1);
    assert WordsAt(lt, p + 3, ["shown"]) == Some(p + 8);
  }

  /** Lower-casing keeps a lower-case slice. */
  lemma LowerKeeps(t: string, p: nat, q: nat, w: string)
    requires p <= q <= |t| && t[p..q] == w && Lower(w) == w
    ensures Lower(t)[p..q] == w
  {
    assert forall k :: 0 <= k < q - p ==> Lower(t)[p..q][k] == LowerChar(t[p + k]) == LowerChar(w[k]) == Lower(w)[k];
  }

  /** Any text that says "as shown" refers to a figure. */
  lemma AsShownIsReference(a: string, b: string)
    ensures HasFigureReference(a + "as shown" + b)
  {
    var t := a + "as shown" + b;
    var lt := Lower(t);
    var p := |a|;
    assert t[p..p + 8] == "as shown";
    assert Lower("as shown") == "as shown";
    LowerKeeps(t, p, p + 8, "as shown");
    AsShownAt(lt, p);
    assert FigurePhrases[1] == ["as", "shown"];
    assert PhraseAt(lt, p, FigurePhrases);
  }

  // ---------------------------------------------------------------------
  // Options: \(([A-Da-d])\)\s*(.+?)(?=\s*\([A-Da-d]\)|\s*$) with DOTALL
  // ---------------------------------------------------------------------

  predicate IsOptionLetter(c: char) { 'A' <= c <= 'D' || 'a' <= c <= 'd' }

  /** "(A)" to "(D)", either case, at p. */
  predicate LabelAt(t: string, p: nat) {
    p + 3 <= |t| && t[p] == '(' && IsOptionLetter(t[p + 1]) && t[p + 2] == ')'
  }

  /** The lookahead: only whitespace is left, or whitespace and then a label. */
  predicate StopAt(t: string, e: nat)
    requires e <= |t|
  {
    IsBlank(t[e..]) || LabelAt(t, SkipSpace(t, e))
  }

  /** Where the lazy .+? stops: the first position from e at which the lookahead holds. */
  function FirstStop(t: string, e: nat): (r: nat)
    requires e <= |t|
    ensures e <= r <= |t| && StopAt(t, r)
    ensures forall k :: e <= k < r ==> !StopAt(t, k)
    decreases |t| - e
  {
    assert StopAt(t, |t|) by { assert t[|t|..] == []; }
    if StopAt(t, e) then e else FirstStop(t, e + 1)
  }

  function UpperChar(c: char): (r: char)
    ensures IsOptionLetter(c) ==> 'A' <= r <= 'D'
  {
    if 'a' <= c <= 'z' then (c as int - 32) as char else c
  }

  /** One option: its upper-cased label and its stripped text. */
  datatype Choice = Choice(letter: char, text: string)

  /**
   * findall from p. After a label the greedy \s* takes all the whitespace,
   * unless that reaches the end of the text: then it gives one character
   * back, so .+? can take it. A label with nothing at all after it does
   * not match, and the scan moves on.
   */
  function ChoicesFrom(t: string, p: nat): (r: seq<Choice>)
    requires p <= |t|
    ensures forall i :: 0 <= i < |r| ==> 'A' <= r[i].letter <= 'D' && IsStripped(r[i].text)
    decreases |t| - p
  {
    if p == |t| then []
    else if !LabelAt(t, p) then ChoicesFrom(t, p + 1)
    else
      var a := p + 3;
      var k := SkipSpace(t, a);
      if k == |t| && k == a then ChoicesFrom(t, p + 1)
      else
        var start := if k < |t| then k else |t| - 1;
        var e := FirstStop(t, start + 1);
        var text := Strip(t[start..e]);
        StripFacts(t[start..e]);
        [Choice(UpperChar(t[p + 1]), text)] + ChoicesFrom(t, e)
  }

  function Choices(text: string): seq<Choice> { ChoicesFrom(text, 0) }

  // ---------------------------------------------------------------------
  // Trailing marks: \b(\d{1,2})\s*$ on a stripped text
  // ---------------------------------------------------------------------

  /** \w on ASCII text. */
  predicate IsWordChar(c: char) { 'a' <= c <= 'z' || 'A' <= c <= 'Z' || IsDigit(c) || c == '_' }

  /** The start of the run of digits that ends at q. */
  function DigitsStart(t: string, q: nat): (d: nat)
    requires q <= |t|
    ensures d <= q && forall k :: d <= k < q ==> IsDigit(t[k])
    ensures d == 0 || !IsDigit(t[d - 1])
    decreases q
  {
    if q > 0 && IsDigit(t[q - 1]) then DigitsStart(t, q - 1) else q
  }

  /** A run of digits from d to q, at the start or after a non-digit, is the run that ends at q. */
  lemma {:induction false} DigitsStartAt(t: string, d: nat, q: nat)
    requires d <= q <= |t| && forall k :: d <= k < q ==> IsDigit(t[k])
    requires d == 0 || !IsDigit(t[d - 1])
    ensures DigitsStart(t, q) == d
    decreases q
  {
    if q > d {
      DigitsStartAt(t, d, q - 1);
    }
  }

  /**
   * The search on a stripped text: \s*$ can only match at the end, so the
   * number is the final run of digits; it must have one or two digits (a
   * later start would sit after a digit, where \b fails) and start at a
   * word boundary.
   */
  function TrailingNumber(s: string): Option<nat> {
    var d := DigitsStart(s, |s|);
    if 1 <= |s| - d <= 2 && (d == 0 || !IsWordChar(s[d - 1])) then Some(ValueOf(s, d, |s|)) else None
  }

  // ---------------------------------------------------------------------
  // Exam header fields
  // ---------------------------------------------------------------------

  function OptDot(t: string, q: nat): (r: nat)
    ensures r == q || r == q + 1
  {
    if q < |t| && t[q] == '.' then q + 1 else q
  }

  /** S\.?S\.?L\.?C\.?\s+MODEL\s+QUESTION\s+PAPER at p of the lower-cased text: where PAPER ends. */
  function TitleAt(lt: string, p: nat): (r: Option<nat>)
    ensures r.Some? ==> p < r.value <= |lt|
  {
    if p >= |lt| || lt[p] != 's' then None
    else
      var a := OptDot(lt, p + 1);
      if a >= |lt| || lt[a] != 's' then None
      else
        var b := OptDot(lt, a + 1);
        if b >= |lt| || lt[b] != 'l' then None
        else
          var c := OptDot(lt, b + 1);
          if c >= |lt| || lt[c] != 'c' then None
          else
            var d := OptDot(lt, c + 1);
            if d > |lt| then None
            else
              var q := SkipSpace(lt, d);
              if q == d then None else WordsAt(lt, q, ["model", "question", "paper"])
  }

  /** The first newline at or after e, or |t|: where [^\n]* stops. */
  function LineEnd(t: string, e: nat): (r: nat)
    requires e <= |t|
    ensures e <= r <= |t| && (r < |t| ==> t[r] == '\n')
    ensures forall k :: e <= k < r ==> t[k] != '\n'
    decreases |t| - e
  {
    if e == |t| || t[e] == '\n' then e else LineEnd(t, e + 1)
  }

  function TitleFrom(lt: string, p: nat): (r: Option<nat>)
    requires p <= |lt|
    ensures r.Some? ==> p <= r.value <= |lt| && TitleAt(lt, r.value).Some?
    decreases |lt| - p
  {
    if TitleAt(lt, p).Some? then Some(p)
    else if p == |lt| then None
    else TitleFrom(lt, p + 1)
  }

  /** The exam title: from the leftmost match to the end of its line, stripped. */
  function Title(text: string): (r: Option<string>)
    ensures r.Some? ==> IsStripped(r.value)
  {
    var lt := Lower(text);
    var m := TitleFrom(lt, 0);
    if m.None? then None
    else
      var start := m.value;
      var e := TitleAt(lt, start).value;
      assert start < e <= |text|;
      var line := text[start..LineEnd(text, e)];
      StripFacts(line);
      Some(Strip(line))
  }

  predicate IsUpper(c: char) { 'A' <= c <= 'Z' }

  /** [A-Za-z ] */
  predicate IsNameChar(c: char) { IsUpper(c) || 'a' <= c <= 'z' || c == ' ' }

  function NameEnd(t: string, p: nat): (q: nat)
    requires p <= |t|
    ensures p <= q <= |t|
    ensures forall k :: p <= k < q ==> IsNameChar(t[k])
    ensures q < |t| ==> !IsNameChar(t[q])
    decreases |t| - p
  {
    if p < |t| && IsNameChar(t[p]) then NameEnd(t, p + 1) else p
  }

  /** Subject\s*:\s*([A-Z][A-Za-z ]+) at p (case-sensitive): the captured name. */
  function SubjectAt(t: string, p: nat): (r: Option<string>)
    ensures r.Some? ==> |r.value| >= 2 && IsUpper(r.value[0])
    ensures r.Some? ==> forall k :: 0 <= k < |r.value| ==> IsNameChar(r.value[k])
  {
    if p + 7 > |t| || t[p..p + 7] != "Subject" then None
    else
      var q := SkipSpace(t, p + 7);
      if q >= |t| || t[q] != ':' then None
      else
        var s := SkipSpace(t, q + 1);
        if s >= |t| || !IsUpper(t[s]) then None
        else
          var e := NameEnd(t, s + 1);
          if e == s + 1 then None
          else
            assert forall k :: 0 <= k < e - s ==> t[s..e][k] == t[s + k];
            Some(t[s..e])
  }

  function SubjectFrom(t: string, p: nat): (r: Option<nat>)
    requires p <= |t|
    ensures r.Some? ==> p <= r.value <= |t| && SubjectAt(t, r.value).Some?
    decreases |t| - p
  {
    if SubjectAt(t, p).Some? then Some(p)
    else if p == |t| then None
    else SubjectFrom(t, p + 1)
  }

  /** The subject: the leftmost match's name, stripped. */
  function Subject(text: string): (r: Option<string>)
    ensures r.Some? ==> r.value != [] && IsUpper(r.value[0]) && IsStripped(r.value)
  {
    var m := SubjectFrom(text, 0);
    if m.None? then None
    else
      var name := SubjectAt(text, m.value).value;
      assert !IsSpace(name[0]);
      assert Strip(name) == RStrip(name);
      RStripFacts(name);
      StripFacts(name);
      Some(Strip(name))
  }

  /** Max\.?\s*Marks?\s*:\s*(\d+) at p of the lower-cased text: the number. */
  function MaxMarksAt(lt: string, p: nat): Option<nat> {
    if p + 3 > |lt| || lt[p..p + 3] != "max" then None
    else
      var a := OptDot(lt, p + 3);
      if a > |lt| then None
      else
        var b := SkipSpace(lt, a);
        if b + 4 > |lt| || lt[b..b + 4] != "mark" then None
        else
          var c := if b + 4 < |lt| && lt[b + 4] == 's' then b + 5 else b + 4;
          var d := SkipSpace(lt, c);
          if d >= |lt| || lt[d] != ':' then None
          else
            var e := SkipSpace(lt, d + 1);
            var f := DigitsEnd(lt, e);
            if f == e then None else Some(ValueOf(lt, e, f))
  }

  /** The maximum marks: the number of the leftmost match. */
  function MaxMarksFrom(lt: string, p: nat): (r: Option<nat>)
    requires p <= |lt|
    ensures r.Some? ==> p <= r.value <= |lt| && MaxMarksAt(lt, r.value).Some?
    decreases |lt| - p
  {
    if MaxMarksAt(lt, p).Some? then Some(p)
    else if p == |lt| then None
    else MaxMarksFrom(lt, p + 1)
  }

  function MaxMarks(text: string): Option<nat> {
    var lt := Lower(text);
    var m := MaxMarksFrom(lt, 0);
    if m.None? then None else MaxMarksAt(lt, m.value)
  }
}
