/**
 * Shared helpers of the extraction service: the error hierarchy, text
 * normalisation, word-level Levenshtein distance, word error rate,
 * similarity ratio and the input guards.
 */
module Utils {
  import opened Wrappers
  import opened Text

  /** The subclasses of ExtractionError; every one of them is an ExtractionError. */
  datatype ErrorKind =
    | MissingDependency
    | PdfValidation
    | PdfProcessing
    | MaxPagesExceeded
    | EmptyContent
    | QualityGate

  datatype ExtractionError = ExtractionError(kind: ErrorKind, message: string)

  /** The Python class name of an error, as `type(exc).__name__` reports it. */
  function ClassName(e: ExtractionError): (name: string)
    ensures name != []
  {
    match e.kind
    case MissingDependency => "MissingDependencyError"
    case PdfValidation => "PdfValidationError"
    case PdfProcessing => "PdfProcessingError"
    case MaxPagesExceeded => "MaxPagesExceededError"
    case EmptyContent => "EmptyContentError"
    case QualityGate => "QualityGateError"
  }

  /** Different error classes have different names. */
  lemma ClassNameInjective(e1: ExtractionError, e2: ExtractionError)
    ensures ClassName(e1) == ClassName(e2) <==> e1.kind == e2.kind
  {
  }

  /**
   * An exception escaping a call: one of the ExtractionError classes, or an
   * exception of another class (raised by a rendering or OCR library) with
   * its class name and message.
   */
  datatype Failure = Raised(error: ExtractionError) | Foreign(className: string, message: string)

  /** type(exc).__name__ */
  function FailureClass(f: Failure): string {
    match f
    case Raised(e) => ClassName(e)
    case Foreign(name, _) => name
  }

  /** str(exc) */
  function FailureMessage(f: Failure): string {
    match f
    case Raised(e) => e.message
    case Foreign(_, msg) => msg
  }

  // ---------------------------------------------------------------- normalize_text

  /** The character replacements normalize_text makes before splitting into words. */
  function Unligature(text: string): string {
    var s1 := Replace(text, "\U{FB01}", "fi");
    var s2 := Replace(s1, "\U{FB02}", "fl");
    var s3 := Replace(s2, "\r\n", "\n");
    Replace(s3, "\n", " ")
  }

  /** normalize_text: ligatures expanded, whitespace runs collapsed to one space, trimmed, lower-cased. */
  function NormalizeText(text: string): string {
    var joined := Join(Words(Unligature(text)), " ");
    Lower(Strip(joined))
  }

  lemma BlankConcatIff(a: string, b: string)
    ensures IsBlank(a + b) <==> IsBlank(a) && IsBlank(b)
  {
    if IsBlank(a + b) {
      assert forall i :: 0 <= i < |a| ==> a[i] == (a + b)[i];
      assert forall i :: 0 <= i < |b| ==> b[i] == (a + b)[|a| + i];
    }
  }

  /** Replacing text by text of the same kind (all blank, or all non-blank) keeps blankness. */
  lemma {:induction false} ReplaceBlank(s: string, pat: string, rep: string)
    requires pat != []
    requires (IsBlank(pat) && IsBlank(rep)) || (NoSpace(pat) && NoSpace(rep) && rep != [])
    ensures IsBlank(Replace(s, pat, rep)) <==> IsBlank(s)
    decreases |s|
  {
    if |s| >= |pat| {
      if s[..|pat|] == pat {
        ReplaceBlank(s[|pat|..], pat, rep);
        BlankConcatIff(rep, Replace(s[|pat|..], pat, rep));
        assert s == pat + s[|pat|..];
        BlankConcatIff(pat, s[|pat|..]);
        if NoSpace(pat) { assert !IsSpace(s[0]); assert !IsSpace(rep[0]); }
      } else {
        ReplaceBlank(s[1..], pat, rep);
        BlankConcatIff([s[0]], Replace(s[1..], pat, rep));
        assert s == [s[0]] + s[1..];
        BlankConcatIff([s[0]], s[1..]);
      }
    }
  }

  lemma UnligatureBlank(text: string)
    ensures IsBlank(Unligature(text)) <==> IsBlank(text)
  {
    var s1 := Replace(text, "\U{FB01}", "fi");
    var s2 := Replace(s1, "\U{FB02}", "fl");
    var s3 := Replace(s2, "\r\n", "\n");
    ReplaceBlank(text, "\U{FB01}", "fi");
    ReplaceBlank(s1, "\U{FB02}", "fl");
    ReplaceBlank(s2, "\r\n", "\n");
    ReplaceBlank(s3, "\n", " ");
  }

  /** A text splits into no words exactly when it is blank. */
  lemma {:induction false} WordsEmpty(s: string)
    ensures Words(s) == [] <==> IsBlank(s)
    decreases |s|
  {
    if s != [] && IsSpace(s[0]) {
      WordsEmpty(s[1..]);
      assert s == [s[0]] + s[1..];
      BlankConcatIff([s[0]], s[1..]);
    }
  }

  /** The normalised text is the lower-cased words of the unligatured text, joined by single spaces. */
  lemma NormalizeAsJoin(text: string)
    ensures NormalizeText(text) == Join(LowerAll(Words(Unligature(text))), " ")
  {
    var ws := Words(Unligature(text));
    var j := Join(ws, " ");
    JoinWordsStripped(ws);
    StripIdentity(j);
    LowerJoin(ws);
  }

  /** The words of the normalised text are the lower-cased words of the unligatured text. */
  lemma NormalizeWords(text: string)
    ensures Words(NormalizeText(text)) == LowerAll(Words(Unligature(text)))
    ensures Words(NormalizeText(text)) == [] <==> IsBlank(text)
  {
    var ws := Words(Unligature(text));
    NormalizeAsJoin(text);
    LowerAllWords(ws);
    WordsOfJoin(LowerAll(ws));
    WordsEmpty(Unligature(text));
    UnligatureBlank(text);
  }

  lemma UnligatureRemovesLigatures(text: string)
    ensures '\U{FB01}' !in Unligature(text) && '\U{FB02}' !in Unligature(text)
  {
    var s1 := Replace(text, "\U{FB01}", "fi");
    var s2 := Replace(s1, "\U{FB02}", "fl");
    var s3 := Replace(s2, "\r\n", "\n");
    ReplaceCharRemoves(text, '\U{FB01}', "fi");
    ReplaceChars(s1, "\U{FB02}", "fl", '\U{FB01}');
    ReplaceCharRemoves(s1, '\U{FB02}', "fl");
    ReplaceChars(s2, "\r\n", "\n", '\U{FB01}');
    ReplaceChars(s2, "\r\n", "\n", '\U{FB02}');
    ReplaceChars(s3, "\n", " ", '\U{FB01}');
    ReplaceChars(s3, "\n", " ", '\U{FB02}');
  }

  /** Lower-casing never produces a character outside A-Z's images unless it was already there. */
  lemma LowerAllChars(ws: seq<string>, c: char)
    requires !('a' <= c <= 'z')
    requires forall i :: 0 <= i < |ws| ==> c !in ws[i]
    ensures forall i :: 0 <= i < |ws| ==> c !in LowerAll(ws)[i]
  {
    forall i, k | 0 <= i < |ws| && 0 <= k < |ws[i]| ensures LowerAll(ws)[i][k] != c {
      assert ws[i][k] != c;
    }
  }

  /** The shape of a normalised text: trimmed, single spaces, no line breaks, no ligatures. */
  lemma NormalizeShape(text: string)
    ensures IsStripped(NormalizeText(text))
    ensures forall i :: 0 <= i < |NormalizeText(text)| && IsSpace(NormalizeText(text)[i])
              ==> NormalizeText(text)[i] == ' '
    ensures '\U{FB01}' !in NormalizeText(text) && '\U{FB02}' !in NormalizeText(text)
  {
    NormalizeAsJoin(text);
    var u := Unligature(text);
    var ws := Words(u);
    LowerAllWords(ws);
    JoinWordsStripped(LowerAll(ws));
    JoinWordsSpaces(LowerAll(ws));
    UnligatureRemovesLigatures(text);
    WordsChars(u, '\U{FB01}');
    WordsChars(u, '\U{FB02}');
    LowerAllChars(ws, '\U{FB01}');
    LowerAllChars(ws, '\U{FB02}');
    JoinChars(LowerAll(ws), " ", '\U{FB01}');
    JoinChars(LowerAll(ws), " ", '\U{FB02}');
  }

  lemma {:induction false} WordsChars(s: string, c: char)
    requires c !in s
    ensures forall i :: 0 <= i < |Words(s)| ==> c !in Words(s)[i]
    decreases |s|
  {
    if s != [] {
      if IsSpace(s[0]) {
        WordsChars(s[1..], c);
      } else {
        var n := WordLen(s);
        WordsChars(s[n..], c);
        assert c !in s[..n];
      }
    }
  }

  lemma {:induction false} JoinChars(ws: seq<string>, sep: string, c: char)
    requires c !in sep && forall i :: 0 <= i < |ws| ==> c !in ws[i]
    ensures c !in Join(ws, sep)
    decreases |ws|
  {
    if |ws| > 1 {
      JoinChars(ws[1..], sep, c);
    }
  }

  /** A normalised text is left alone by the replacements. */
  lemma UnligatureOfNormalized(text: string)
    ensures Unligature(NormalizeText(text)) == NormalizeText(text)
  {
    var n := NormalizeText(text);
    NormalizeShape(text);
    assert '\r' !in n && '\n' !in n by {
      forall i | 0 <= i < |n| ensures n[i] != '\r' && n[i] != '\n' {
        if IsSpace(n[i]) { assert n[i] == ' '; }
      }
    }
    ReplaceAbsent(n, "\U{FB01}", "fi");
    ReplaceAbsent(n, "\U{FB02}", "fl");
    ReplaceAbsent(n, "\r\n", "\n");
    ReplaceAbsent(n, "\n", " ");
  }

  lemma LowerAllIdempotent(ws: seq<string>)
    ensures LowerAll(LowerAll(ws)) == LowerAll(ws)
  {
    forall i | 0 <= i < |ws| ensures LowerAll(LowerAll(ws))[i] == LowerAll(ws)[i] {
      LowerIdempotent(ws[i]);
    }
  }

  /** Normalising twice gives the same text as normalising once. */
  lemma NormalizeIdempotent(text: string)
    ensures NormalizeText(NormalizeText(text)) == NormalizeText(text)
  {
    var n := NormalizeText(text);
    var lws := LowerAll(Words(Unligature(text)));
    NormalizeAsJoin(text);
    assert n == Join(lws, " ");
    LowerAllWords(Words(Unligature(text)));
    UnligatureOfNormalized(text);
    WordsOfJoin(lws);
    assert Words(Unligature(n)) == lws;
    NormalizeAsJoin(n);
    LowerAllIdempotent(Words(Unligature(text)));
  }

  // ---------------------------------------------------------------- levenshtein

  function Min3(x: nat, y: nat, z: nat): (m: nat)
    ensures m <= x && m <= y && m <= z
    ensures m == x || m == y || m == z
  {
    if x <= y && x <= z then x else if y <= z then y else z
  }

  /**
   * The edit distance between a and b: the fewest single-element insertions,
   * deletions and substitutions turning a into b, defined on prefixes.
   */
  function EditDistance<T(==)>(a: seq<T>, b: seq<T>): nat
    decreases |a| + |b|
  {
    if |a| == 0 then |b|
    else if |b| == 0 then |a|
    else
      Min3(EditDistance(a[..|a| - 1], b) + 1,
           EditDistance(a, b[..|b| - 1]) + 1,
           EditDistance(a[..|a| - 1], b[..|b| - 1]) + (if a[|a| - 1] == b[|b| - 1] then 0 else 1))
  }

  lemma {:induction false} EditDistanceSelf<T>(a: seq<T>)
    ensures EditDistance(a, a) == 0
  {
    if |a| > 0 {
      EditDistanceSelf(a[..|a| - 1]);
    }
  }

  /** Distance zero means the sequences are equal. */
  lemma {:induction false} EditDistanceZero<T>(a: seq<T>, b: seq<T>)
    ensures EditDistance(a, b) == 0 <==> a == b
    decreases |a| + |b|
  {
    if a == b {
      EditDistanceSelf(a);
    } else if |a| > 0 && |b| > 0 {
      var a', b' := a[..|a| - 1], b[..|b| - 1];
      EditDistanceZero(a', b');
      assert a == a' + [a[|a| - 1]] && b == b' + [b[|b| - 1]];
    }
  }

  /** The distance lies between the difference of the lengths and the longer length. */
  lemma {:induction false} EditDistanceBounds<T>(a: seq<T>, b: seq<T>)
    ensures EditDistance(a, b) <= if |a| >= |b| then |a| else |b|
    ensures EditDistance(a, b) >= if |a| >= |b| then |a| - |b| else |b| - |a|
    decreases |a| + |b|
  {
    if |a| > 0 && |b| > 0 {
      EditDistanceBounds(a[..|a| - 1], b);
      EditDistanceBounds(a, b[..|b| - 1]);
      EditDistanceBounds(a[..|a| - 1], b[..|b| - 1]);
    }
  }

  /** The recurrence the two-row programme evaluates, on prefixes of a and b. */
  lemma EditDistanceStep<T>(a: seq<T>, b: seq<T>, i: nat, j: nat)
    requires 1 <= i <= |a| && 1 <= j <= |b|
    ensures EditDistance(a[..i], b[..j])
         == Min3(EditDistance(a[..i - 1], b[..j]) + 1,
                 EditDistance(a[..i], b[..j - 1]) + 1,
                 EditDistance(a[..i - 1], b[..j - 1]) + (if a[i - 1] == b[j - 1] then 0 else 1))
  {
    assert a[..i][..i - 1] == a[..i - 1] && b[..j][..j - 1] == b[..j - 1];
  }

  lemma EditDistanceEmptyPrefix<T>(a: seq<T>, b: seq<T>, i: nat, j: nat)
    requires i <= |a| && j <= |b|
    ensures EditDistance(a[..i], b[..0]) == i
    ensures EditDistance(a[..0], b[..j]) == j
  {
  }

  /** Row i of the programme: the distances from a[..i] to every prefix of b. */
  function DistRow<T(==)>(a: seq<T>, b: seq<T>, i: nat): (r: seq<nat>)
    requires i <= |a|
    ensures |r| == |b| + 1
  {
    seq(|b| + 1, j requires 0 <= j <= |b| => EditDistance(a[..i], b[..j]))
  }

  /** The recurrence, on rows: each entry from its left, upper and upper-left neighbours. */
  lemma DistRowStep<T>(a: seq<T>, b: seq<T>, i: nat, j: nat)
    requires 1 <= i <= |a| && 1 <= j <= |b|
    ensures DistRow(a, b, i)[j]
         == Min3(DistRow(a, b, i)[j - 1] + 1, DistRow(a, b, i - 1)[j] + 1,
                 DistRow(a, b, i - 1)[j - 1] + (if a[i - 1] == b[j - 1] then 0 else 1))
  {
    EditDistanceStep(a, b, i, j);
  }

  /** The first row: the distance from the empty prefix is the length. */
  lemma DistRowFirst<T>(a: seq<T>, b: seq<T>)
    ensures DistRow(a, b, 0) == seq(|b| + 1, j requires 0 <= j <= |b| => j)
  {
    forall j | 0 <= j <= |b|
      ensures DistRow(a, b, 0)[j] == j
    {
      EditDistanceEmptyPrefix(a, b, 0, j);
    }
  }

  /** One row of the programme: the distances from a[..i] to every prefix of b, given the row for a[..i - 1]. */
  method NextRow<T(==)>(a: seq<T>, b: seq<T>, i: nat, prev: seq<nat>) returns (curr: seq<nat>)
    requires 1 <= i <= |a|
    requires prev == DistRow(a, b, i - 1)
    ensures curr == DistRow(a, b, i)
  {
    curr := [i];
    EditDistanceEmptyPrefix(a, b, i, 0);
    var j := 1;
    while j <= |b|
      invariant 1 <= j <= |b| + 1
      invariant curr == DistRow(a, b, i)[..j]
    {
      var insert := curr[j - 1] + 1;
      var delete := prev[j] + 1;
      var replace := prev[j - 1] + (if a[i - 1] == b[j - 1] then 0 else 1);
      DistRowStep(a, b, i, j);
      curr := curr + [Min3(insert, delete, replace)];
      j := j + 1;
    }
  }

  /** levenshtein(a, b): the two-row dynamic programme computes the edit distance. */
  method Levenshtein<T(==)>(a: seq<T>, b: seq<T>) returns (d: nat)
    ensures d == EditDistance(a, b)
  {
    if a == b {
      EditDistanceSelf(a);
      return 0;
    }
    if |a| == 0 {
      return |b|;
    }
    if |b| == 0 {
      return |a|;
    }
    var prev: seq<nat> := seq(|b| + 1, j requires 0 <= j <= |b| => j);
    DistRowFirst(a, b);
    var i := 1;
    while i <= |a|
      invariant 1 <= i <= |a| + 1
      invariant prev == DistRow(a, b, i - 1)
    {
      prev := NextRow(a, b, i, prev);
      i := i + 1;
    }
    assert a[..|a|] == a && b[..|b|] == b;
    d := prev[|b|];
  }

  // ---------------------------------------------------------------- WER and similarity

  lemma RatioFacts(d: nat, n: nat)
    requires n > 0
    ensures d as real / n as real >= 0.0
    ensures d as real / n as real == 0.0 <==> d == 0
    ensures d == n ==> d as real / n as real == 1.0
  {
  }

  /** What the word lists of two normalised texts say about their distance. */
  lemma WerFacts(reference: string, hypothesis: string)
    ensures Words(NormalizeText(reference)) == [] <==> IsBlank(reference)
    ensures EditDistance(Words(NormalizeText(reference)), Words(NormalizeText(hypothesis))) == 0
        <==> Words(NormalizeText(reference)) == Words(NormalizeText(hypothesis))
    ensures IsBlank(hypothesis) ==>
        EditDistance(Words(NormalizeText(reference)), Words(NormalizeText(hypothesis)))
        == |Words(NormalizeText(reference))|
  {
    var rw := Words(NormalizeText(reference));
    var hw := Words(NormalizeText(hypothesis));
    NormalizeWords(reference);
    NormalizeWords(hypothesis);
    EditDistanceZero(rw, hw);
    EditDistanceBounds(rw, hw);
  }

  /** word_error_rate: word edit distance over the number of reference words, None for a blank reference. */
  function WordErrorRate(reference: string, hypothesis: string): (r: Option<real>)
    ensures r.None? <==> IsBlank(reference)
    ensures r.Some? ==> r.value >= 0.0
    ensures r.Some? ==> (r.value == 0.0 <==> Words(NormalizeText(reference)) == Words(NormalizeText(hypothesis)))
    ensures r.Some? && IsBlank(hypothesis) ==> r.value == 1.0
  {
    var refWords := Words(NormalizeText(reference));
    var hypWords := Words(NormalizeText(hypothesis));
    WerFacts(reference, hypothesis);
    if refWords == [] then None
    else
      var d := EditDistance(refWords, hypWords);
      var n := if |refWords| >= 1 then |refWords| else 1;
      RatioFacts(d, n);
      Some(d as real / n as real)
  }

  /** similarity_ratio: 1 - WER, None for a blank reference; 1.0 exactly for identical word lists. */
  function SimilarityRatio(reference: string, hypothesis: string): (r: Option<real>)
    ensures r.None? <==> IsBlank(reference)
    ensures r.Some? ==> r.value <= 1.0
    ensures r.Some? ==> (r.value == 1.0 <==> Words(NormalizeText(reference)) == Words(NormalizeText(hypothesis)))
    ensures r.Some? && IsBlank(hypothesis) ==> r.value == 0.0
  {
    match WordErrorRate(reference, hypothesis)
    case None => None
    case Some(wer) => Some(1.0 - wer)
  }

  /** A text compared with itself: similarity 1.0 unless it is blank. */
  lemma SimilaritySelf(text: string)
    ensures SimilarityRatio(text, text) == if IsBlank(text) then None else Some(1.0)
  {
  }

  // ---------------------------------------------------------------- guards

  /** ensure_binaries: the binaries of the list that are not on the PATH, in list order. */
  function MissingBinaries(binaries: seq<string>, onPath: set<string>): (missing: seq<string>)
    ensures forall b :: b in missing <==> b in binaries && b !in onPath
  {
    if binaries == [] then []
    else (if binaries[0] in onPath then [] else [binaries[0]]) + MissingBinaries(binaries[1..], onPath)
  }

  /** ensure_binaries: MissingDependencyError naming the missing binaries, or nothing. */
  function EnsureBinaries(binaries: seq<string>, onPath: set<string>): (r: Option<ExtractionError>)
    ensures r.None? <==> forall b :: b in binaries ==> b in onPath
    ensures r.Some? ==> r.value.kind == MissingDependency
  {
    var missing := MissingBinaries(binaries, onPath);
    if missing == [] then None
    else
      assert missing[0] in missing;
      Some(ExtractionError(MissingDependency, "Missing required system binaries: " + Join(missing, ", ")))
  }

  /** What the file system reports about a path (after expanduser/resolve). */
  datatype PathFacts = PathFacts(path: string, found: bool, isFile: bool, suffix: string, readable: bool)

  /** validate_pdf_path: the path back, or the first PdfValidationError in check order. */
  function ValidatePdfPath(p: PathFacts): (r: Result<string, ExtractionError>)
    ensures r.Ok? <==> p.found && p.isFile && Lower(p.suffix) == ".pdf" && p.readable
    ensures r.Ok? ==> r.value == p.path
    ensures r.Err? ==> r.error.kind == PdfValidation
  {
    if !p.found then Err(ExtractionError(PdfValidation, "PDF not found: " + p.path))
    else if !p.isFile then Err(ExtractionError(PdfValidation, "PDF path is not a file: " + p.path))
    else if Lower(p.suffix) != ".pdf" then Err(ExtractionError(PdfValidation, "Input file must be a PDF."))
    else if !p.readable then Err(ExtractionError(PdfValidation, "PDF is not readable: " + p.path))
    else Ok(p.path)
  }

  /** The message of the ValueError int() raises for text it cannot read. */
  function IntErrorText(s: string): string {
    "invalid literal for int() with base 10: '" + s + "'"
  }

  /**
   * get_pdf_page_count: int(info.get("Pages", 0)) from pdfinfo's dictionary.
   * pdfinfo failing (with its exception's message) or an unparsable count
   * is a PdfProcessingError whose message carries the exception's text.
   */
  function GetPdfPageCount(info: Result<map<string, string>, string>): (r: Result<int, ExtractionError>)
    ensures info.Ok? && "Pages" !in info.value ==> r == Ok(0)
    ensures info.Ok? && "Pages" in info.value && ParseInt(info.value["Pages"]).Some? ==> r == Ok(ParseInt(info.value["Pages"]).value)
    ensures r.Err? <==> info.Err? || ("Pages" in info.value && ParseInt(info.value["Pages"]).None?)
    ensures r.Err? ==> r.error.kind == PdfProcessing && StartsWith(r.error.message, "Failed to read PDF metadata: ")
    ensures info.Err? ==> r.error.message == "Failed to read PDF metadata: " + info.error
    ensures info.Ok? && r.Err? ==> r.error.message == "Failed to read PDF metadata: " + IntErrorText(info.value["Pages"])
  {
    match info
    case Err(detail) => Err(ExtractionError(PdfProcessing, "Failed to read PDF metadata: " + detail))
    case Ok(m) =>
      if "Pages" !in m then (ParseIntToString(0); Ok(0))
      else match ParseInt(m["Pages"])
        case None => Err(ExtractionError(PdfProcessing, "Failed to read PDF metadata: " + IntErrorText(m["Pages"])))
        case Some(n) => Ok(n)
  }

  /** guard_max_pages: MaxPagesExceededError exactly when a limit is set and the count is above it. */
  function GuardMaxPages(pageCount: int, maxPages: Option<int>): (r: Option<ExtractionError>)
    ensures r.Some? <==> maxPages.Some? && pageCount > maxPages.value
    ensures r.Some? ==> r.value.kind == MaxPagesExceeded
  {
    match maxPages
    case None => None
    case Some(limit) =>
      if pageCount > limit then
        Some(ExtractionError(MaxPagesExceeded,
          "PDF has " + IntToString(pageCount) + " pages, exceeds limit of " + IntToString(limit) + "."))
      else None
  }
}
