/**
 * Math OCR post-processing: the LaTeX-to-text simplification, the result of
 * recognising one equation image, and the aspect-ratio filter that picks
 * likely equation images from a page.
 *
 * The Pix2Tex model, base64 decoding and image loading are inputs: whether
 * the library is installed, and for each image whether it could be
 * decoded and what the model returned or raised.
 */
module MathOcr {
  import opened Wrappers
  import opened Text
  import Utils
  import Schema

  // ---------------------------------------------------------------- _latex_to_text

  /**
   * The fixed replacements, applied in this order: each command name,
   * written after a backslash, and what replaces it.
   */
  const Replacements: seq<(string, string)> := [
    ("frac", ""), ("sqrt", "sqrt"), ("times", " x "), ("div", " / "),
    ("pm", " +/- "), ("leq", " <= "), ("geq", " >= "), ("neq", " != "),
    ("infty", "infinity"), ("pi", "pi"), ("alpha", "alpha"), ("beta", "beta"),
    ("gamma", "gamma"), ("theta", "theta"), ("sum", "SUM"), ("int", "INTEGRAL"),
    ("lim", "lim"), ("rightarrow", " -> "), ("leftarrow", " <- "), ("Rightarrow", " => "),
    ("cdot", " . "), ("ldots", "...")
  ]

  /** The replacements applied one after the other. */
  function ApplyReplacements(s: string, rs: seq<(string, string)>): string
    decreases |rs|
  {
    if rs == [] then s else ApplyReplacements(Replace(s, "\\" + rs[0].0, rs[0].1), rs[1..])
  }

  predicate IsLetter(c: char) { 'a' <= c <= 'z' || 'A' <= c <= 'Z' }

  /** Length of the run of ASCII letters that starts s. */
  function LetterRun(s: string): (n: nat)
    ensures n <= |s|
  {
    if s == [] || !IsLetter(s[0]) then 0 else 1 + LetterRun(s[1..])
  }

  /** re.sub(r"\\[a-zA-Z]+", "", s): a backslash and the letters after it go; left to right. */
  function RemoveCommands(s: string): string
    decreases |s|
  {
    if s == [] then []
    else if s[0] == '\\' && |s| > 1 && IsLetter(s[1]) then RemoveCommands(s[1 + LetterRun(s[1..])..])
    else [s[0]] + RemoveCommands(s[1..])
  }

  /**
   * _latex_to_text: the replacements, the remaining commands removed, the
   * braces removed, whitespace runs collapsed to one space and the ends
   * trimmed (re.sub(r"\s+", " ", t).strip() is the words of t joined by
   * single spaces).
   */
  function LatexToText(latex: string): string {
    if latex == [] then []
    else
      var replaced := ApplyReplacements(latex, Replacements);
      var bare := RemoveCommands(replaced);
      var unbraced := Replace(Replace(bare, "{", ""), "}", "");
      Join(Words(unbraced), " ")
  }

  /** Trimmed, and every whitespace character is a single space between two non-spaces. */
  predicate SingleSpaced(t: string) {
    && IsStripped(t)
    && forall i :: 0 <= i < |t| && IsSpace(t[i]) ==> t[i] == ' ' && i + 1 < |t| && !IsSpace(t[i + 1])
  }

  /** Words joined by single spaces are single-spaced. */
  lemma {:induction false} JoinSingleSpaced(ws: seq<string>)
    requires AreWords(ws)
    ensures SingleSpaced(Join(ws, " "))
    decreases |ws|
  {
    JoinWordsStripped(ws);
    if |ws| > 1 {
      JoinSingleSpaced(ws[1..]);
      JoinWordsStripped(ws[1..]);
      var w, rest := ws[0], Join(ws[1..], " ");
      var s := w + " " + rest;
      assert s == Join(ws, " ");
      assert forall i :: 0 <= i < |w| ==> s[i] == w[i];
      forall i | 0 <= i < |s| && IsSpace(s[i]) ensures s[i] == ' ' && i + 1 < |s| && !IsSpace(s[i + 1]) {
        if i == |w| {
          assert s[i + 1] == rest[0];
        } else if i > |w| {
          assert s[i] == rest[i - |w| - 1];
          assert s[i + 1] == rest[i - |w|];
        }
      }
    } else if |ws| == 1 {
      assert Join(ws, " ") == ws[0];
    }
  }

  /** A single-spaced text is its own words joined by single spaces. */
  lemma {:induction false} SingleSpacedJoin(t: string)
    requires SingleSpaced(t)
    ensures Join(Words(t), " ") == t
    ensures t != [] ==> Words(t) != []
    decreases |t|
  {
    if t != [] {
      var n := WordLen(t);
      assert n > 0;
      if n == |t| {
        assert t[n..] == [];
        assert Words(t) == [t[..n]] + Words([]);
        assert t[..n] == t;
      } else {
        var rest := t[n + 1..];
        assert IsSpace(t[n]);
        assert t[n] == ' ' && !IsSpace(t[n + 1]);
        assert rest[0] == t[n + 1];
        assert IsStripped(rest) by {
          assert rest[|rest| - 1] == t[|t| - 1];
        }
        forall i | 0 <= i < |rest| && IsSpace(rest[i]) ensures rest[i] == ' ' && i + 1 < |rest| && !IsSpace(rest[i + 1]) {
          assert rest[i] == t[n + 1 + i];
        }
        SingleSpacedJoin(rest);
        assert t[n..][0] == t[n] && t[n..][1..] == rest;
        WordsOfSpacePrefix(t[n..]);
        assert Words(t) == [t[..n]] + Words(rest);
        assert t == t[..n] + " " + rest;
      }
    }
  }

  lemma {:induction false} ApplyReplacementsAbsent(s: string, rs: seq<(string, string)>)
    requires '\\' !in s
    ensures ApplyReplacements(s, rs) == s
    decreases |rs|
  {
    if rs != [] {
      ReplaceAbsent(s, "\\" + rs[0].0, rs[0].1);
      ApplyReplacementsAbsent(s, rs[1..]);
    }
  }

  lemma {:induction false} RemoveCommandsAbsent(s: string)
    requires '\\' !in s
    ensures RemoveCommands(s) == s
    decreases |s|
  {
    if s != [] {
      RemoveCommandsAbsent(s[1..]);
    }
  }

  /** The empty input gives the empty text. */
  lemma LatexToTextEmpty()
    ensures LatexToText("") == ""
  {
  }

  /**
   * The plain text carries no brace, no whitespace at either end and no
   * whitespace run: each whitespace character is one space between words.
   */
  lemma LatexToTextShape(latex: string)
    ensures '{' !in LatexToText(latex) && '}' !in LatexToText(latex)
    ensures SingleSpaced(LatexToText(latex))
  {
    if latex != [] {
      var bare := RemoveCommands(ApplyReplacements(latex, Replacements));
      var open1 := Replace(bare, "{", "");
      var unbraced := Replace(open1, "}", "");
      ReplaceCharRemoves(bare, '{', "");
      ReplaceChars(open1, "}", "", '{');
      ReplaceCharRemoves(open1, '}', "");
      Utils.WordsChars(unbraced, '{');
      Utils.WordsChars(unbraced, '}');
      Utils.JoinChars(Words(unbraced), " ", '{');
      Utils.JoinChars(Words(unbraced), " ", '}');
      JoinSingleSpaced(Words(unbraced));
    }
  }

  /** Text with no backslash, no brace and no whitespace run passes through unchanged. */
  lemma LatexToTextPlain(t: string)
    requires '\\' !in t && '{' !in t && '}' !in t
    requires SingleSpaced(t)
    ensures LatexToText(t) == t
  {
    if t != [] {
      ApplyReplacementsAbsent(t, Replacements);
      RemoveCommandsAbsent(t);
      ReplaceAbsent(t, "{", "");
      ReplaceAbsent(t, "}", "");
      SingleSpacedJoin(t);
    }
  }

  // ---------------------------------------------------------------- recognize_equation

  /** {"latex", "rendered_text", "error"}, with "bbox" once the page filter adds it. */
  datatype Equation = Equation(latex: Option<string>, renderedText: Option<string>, error: Option<string>)

  const NotInstalled: string := "pix2tex not installed"

  /**
   * recognize_equation: without pix2tex, the "not installed" error; else
   * the model's LaTeX with its plain text, or the message of what it raised.
   */
  function RecognizeEquation(available: bool, model: Result<string, string>): (r: Equation)
    ensures !available ==> r == Equation(None, None, Some(NotInstalled))
    ensures available && model.Ok? ==> r.error.None? && r.latex == Some(model.value)
                                        && r.renderedText == Some(LatexToText(model.value))
    ensures available && model.Err? ==> r.latex.None? && r.renderedText.None? && r.error == Some(model.error)
    ensures r.latex.None? <==> r.error.Some?
  {
    if !available then Equation(None, None, Some(NotInstalled))
    else match model
      case Ok(latex) => Equation(Some(latex), Some(LatexToText(latex)), None)
      case Err(message) => Equation(None, None, Some(message))
  }

  // ---------------------------------------------------------------- recognize_equations_from_page_images

  /** What decoding and loading the image gave: nothing (it raised), or the model's outcome. */
  datatype Decoding = DecodeFailed | Decoded(model: Result<string, string>)

  /** A page-image dictionary with what happens when it is decoded. */
  datatype PageImage = PageImage(width: Option<real>, height: Option<real>, base64Data: Option<string>,
                                 bbox: Option<Schema.Rect>, decoding: Decoding)

  datatype EquationAt = EquationAt(equation: Equation, bbox: Option<Schema.Rect>)

  const MinAspect: real := 1.5
  const MaxAspect: real := 20.0

  function Width(img: PageImage): real { if img.width.Some? then img.width.value else 0.0 }
  function Height(img: PageImage): real { if img.height.Some? then img.height.value else 0.0 }

  /** Whether an image is tried as an equation: non-zero height, aspect ratio in range, base64 data. */
  predicate Candidate(img: PageImage, minAspect: real, maxAspect: real) {
    && Height(img) != 0.0
    && minAspect <= Width(img) / Height(img) <= maxAspect
    && img.base64Data.Some? && img.base64Data.value != []
  }

  /** A candidate's entry: its recognition with the image's bbox added. */
  function EquationOf(img: PageImage): EquationAt
    requires img.decoding.Decoded?
  {
    EquationAt(RecognizeEquation(true, img.decoding.model), img.bbox)
  }

  /** The loop over the page's images: candidates that decode give an entry, in order. */
  function Equations(images: seq<PageImage>, minAspect: real, maxAspect: real): seq<EquationAt> {
    if images == [] then []
    else
      (if Candidate(images[0], minAspect, maxAspect) && images[0].decoding.Decoded? then [EquationOf(images[0])] else [])
        + Equations(images[1..], minAspect, maxAspect)
  }

  /** recognize_equations_from_page_images: nothing without pix2tex. */
  function RecognizeEquations(available: bool, images: seq<PageImage>, minAspect: real, maxAspect: real): (r: seq<EquationAt>)
    ensures !available ==> r == []
  {
    if !available then [] else Equations(images, minAspect, maxAspect)
  }

  /**
   * An entry comes from a candidate image that decoded, and every such
   * image gives one; images with zero height, an aspect ratio out of range
   * or no data are skipped.
   */
  lemma {:induction false} EquationsMembers(images: seq<PageImage>, minAspect: real, maxAspect: real, e: EquationAt)
    ensures e in Equations(images, minAspect, maxAspect) <==>
      exists i :: 0 <= i < |images| && Candidate(images[i], minAspect, maxAspect)
                  && images[i].decoding.Decoded? && e == EquationOf(images[i])
  {
    if images != [] {
      EquationsMembers(images[1..], minAspect, maxAspect, e);
      if e in Equations(images[1..], minAspect, maxAspect) {
        var i :| 0 <= i < |images[1..]| && Candidate(images[1..][i], minAspect, maxAspect)
                 && images[1..][i].decoding.Decoded? && e == EquationOf(images[1..][i]);
        assert images[i + 1] == images[1..][i];
      }
      if exists i :: 0 <= i < |images| && Candidate(images[i], minAspect, maxAspect)
                     && images[i].decoding.Decoded? && e == EquationOf(images[i]) {
        var i :| 0 <= i < |images| && Candidate(images[i], minAspect, maxAspect)
                 && images[i].decoding.Decoded? && e == EquationOf(images[i]);
        if i > 0 {
          assert images[1..][i - 1] == images[i];
        }
      }
    }
  }

  /** At most one entry per image. */
  lemma {:induction false} EquationsLength(images: seq<PageImage>, minAspect: real, maxAspect: real)
    ensures |Equations(images, minAspect, maxAspect)| <= |images|
  {
    if images != [] {
      EquationsLength(images[1..], minAspect, maxAspect);
    }
  }
}
