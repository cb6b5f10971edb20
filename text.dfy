/**
 * String helpers with Python's meaning, restricted to ASCII:
 * str.isspace, str.strip, str.split() on whitespace, sep.join,
 * str.lower, str.replace, str.split(c), str(int) and int(str).
 */
module Text {
  import opened Wrappers

  /** The ASCII characters Python's str.isspace accepts: space, \t to \r, and the separators \x1c to \x1f. */
  predicate IsSpace(c: char) {
    c == ' ' || '\t' <= c <= '\r' || '\U{001C}' <= c <= '\U{001F}'
  }

  predicate IsDigit(c: char) { '0' <= c <= '9' }

  predicate IsBlank(s: string) { forall i :: 0 <= i < |s| ==> IsSpace(s[i]) }

  predicate NoSpace(s: string) { forall i :: 0 <= i < |s| ==> !IsSpace(s[i]) }

  predicate AllDigits(s: string) { forall i :: 0 <= i < |s| ==> IsDigit(s[i]) }

  /** Neither end of s is whitespace: what str.strip returns. */
  predicate IsStripped(s: string) { s == [] || (!IsSpace(s[0]) && !IsSpace(s[|s| - 1])) }

  predicate StartsWith(s: string, prefix: string) { |prefix| <= |s| && s[..|prefix|] == prefix }

  /** str.lstrip(): drops the leading whitespace and nothing else. */
  function LStrip(s: string): string {
    if s == [] || !IsSpace(s[0]) then s else LStrip(s[1..])
  }

  /** lstrip keeps a suffix that does not start with whitespace, and drops only whitespace. */
  lemma {:induction false} LStripFacts(s: string)
    ensures |LStrip(s)| <= |s| && LStrip(s) == s[|s| - |LStrip(s)|..]
    ensures LStrip(s) == [] || !IsSpace(LStrip(s)[0])
    ensures IsBlank(s[..|s| - |LStrip(s)|])
  {
    if s != [] && IsSpace(s[0]) {
      LStripFacts(s[1..]);
      var r := LStrip(s[1..]);
      assert s[..|s| - |r|] == [s[0]] + s[1..][..|s| - 1 - |r|];
    }
  }

  /** str.rstrip(): drops the trailing whitespace and nothing else. */
  function RStrip(s: string): string {
    if s == [] || !IsSpace(s[|s| - 1]) then s else RStrip(s[..|s| - 1])
  }

  /** rstrip keeps a prefix that does not end with whitespace, and drops only whitespace. */
  lemma {:induction false} RStripFacts(s: string)
    ensures |RStrip(s)| <= |s| && RStrip(s) == s[..|RStrip(s)|]
    ensures RStrip(s) == [] || !IsSpace(RStrip(s)[|RStrip(s)| - 1])
    ensures IsBlank(s[|RStrip(s)|..])
  {
    if s != [] && IsSpace(s[|s| - 1]) {
      RStripFacts(s[..|s| - 1]);
      var r := RStrip(s[..|s| - 1]);
      assert s[|r|..] == s[..|s| - 1][|r|..] + [s[|s| - 1]];
    }
  }

  /** str.strip(). */
  function Strip(s: string): string {
    RStrip(LStrip(s))
  }

  /** strip() leaves no whitespace at either end, never lengthens, and is empty exactly for blank input. */
  lemma StripFacts(s: string)
    ensures IsStripped(Strip(s))
    ensures |Strip(s)| <= |s|
    ensures Strip(s) == [] <==> IsBlank(s)
  {
    var t := LStrip(s);
    LStripFacts(s);
    RStripFacts(t);
    assert s == s[..|s| - |t|] + t;
  }

  /** strip() only removes characters: every character of the result is one of the input. */
  lemma StripChars(s: string, c: char)
    requires c !in s
    ensures c !in Strip(s)
  {
    var t := LStrip(s);
    LStripFacts(s);
    RStripFacts(t);
    assert Strip(s) == s[|s| - |t|..][..|RStrip(t)|];
  }

  lemma StripIdentity(s: string)
    requires IsStripped(s)
    ensures Strip(s) == s
  {
  }

  lemma BlankConcat(a: string, b: string)
    requires IsBlank(a) && IsBlank(b)
    ensures IsBlank(a + b)
  {
  }

  /** Length of the maximal run of non-whitespace characters that starts s. */
  function WordLen(s: string): (n: nat)
    ensures n <= |s| && NoSpace(s[..n])
    ensures n == |s| || IsSpace(s[n])
  {
    if s == [] || IsSpace(s[0]) then 0 else 1 + WordLen(s[1..])
  }

  /** str.split() with no argument: the maximal runs of non-whitespace characters. */
  function Words(s: string): (ws: seq<string>)
    ensures forall i :: 0 <= i < |ws| ==> ws[i] != [] && NoSpace(ws[i])
    decreases |s|
  {
    if s == [] then []
    else if IsSpace(s[0]) then Words(s[1..])
    else
      var n := WordLen(s);
      [s[..n]] + Words(s[n..])
  }

  /** sep.join(parts). */
  function Join(parts: seq<string>, sep: string): string {
    if parts == [] then []
    else if |parts| == 1 then parts[0]
    else parts[0] + sep + Join(parts[1..], sep)
  }

  /** [t for t in texts if t]: the non-empty texts, in order. */
  function NonEmptyOnly(texts: seq<string>): (r: seq<string>)
    ensures |r| <= |texts|
    ensures forall i :: 0 <= i < |r| ==> r[i] != []
    ensures forall t :: t in r <==> t in texts && t != []
  {
    if texts == [] then []
    else
      var init := texts[..|texts| - 1];
      var last := texts[|texts| - 1];
      assert texts == init + [last];
      NonEmptyOnly(init) + (if last != [] then [last] else [])
  }

  /** Joining one more part adds the separator and the part. */
  lemma {:induction false} JoinSnoc(ws: seq<string>, x: string, sep: string)
    requires ws != []
    ensures Join(ws + [x], sep) == Join(ws, sep) + sep + x
    decreases |ws|
  {
    if |ws| == 1 {
      assert (ws + [x])[1..] == [x];
    } else {
      assert (ws + [x])[1..] == ws[1..] + [x];
      JoinSnoc(ws[1..], x, sep);
    }
  }

  /** Every element of ws is a non-empty word without whitespace. */
  predicate AreWords(ws: seq<string>) { forall i :: 0 <= i < |ws| ==> ws[i] != [] && NoSpace(ws[i]) }

  lemma {:induction false} WordLenOfWord(w: string, rest: string)
    requires NoSpace(w)
    requires rest == [] || IsSpace(rest[0])
    ensures WordLen(w + rest) == |w|
    decreases |w|
  {
    if w != [] {
      assert (w + rest)[1..] == w[1..] + rest;
      WordLenOfWord(w[1..], rest);
    } else {
      assert w + rest == rest;
    }
  }

  lemma {:induction false} WordsOfSpacePrefix(s: string)
    requires s != [] && IsSpace(s[0])
    ensures Words(s) == Words(s[1..])
  {
  }

  /** Joining words with single spaces and splitting again gives the words back. */
  lemma {:induction false} WordsOfJoin(ws: seq<string>)
    requires AreWords(ws)
    ensures Words(Join(ws, " ")) == ws
    decreases |ws|
  {
    if ws == [] {
    } else if |ws| == 1 {
      var w := ws[0];
      WordLenOfWord(w, []);
      assert w + [] == w;
      assert w[|w|..] == [];
    } else {
      var w := ws[0];
      var rest := Join(ws[1..], " ");
      var s := w + " " + rest;
      assert s == w + (" " + rest);
      WordLenOfWord(w, " " + rest);
      assert s[..|w|] == w;
      assert s[|w|..] == " " + rest;
      WordsOfSpacePrefix(" " + rest);
      assert (" " + rest)[1..] == rest;
      WordsOfJoin(ws[1..]);
      assert ws == [w] + ws[1..];
    }
  }

  /** Words joined by single spaces: no whitespace at either end. */
  lemma {:induction false} JoinWordsStripped(ws: seq<string>)
    requires AreWords(ws)
    ensures IsStripped(Join(ws, " "))
    ensures Join(ws, " ") == [] <==> ws == []
    decreases |ws|
  {
    if |ws| > 1 {
      JoinWordsStripped(ws[1..]);
      var rest := Join(ws[1..], " ");
      assert (ws[0] + " " + rest)[0] == ws[0][0];
      assert (ws[0] + " " + rest)[|ws[0] + " " + rest| - 1] == rest[|rest| - 1];
    }
  }

  /** Words joined by single spaces: no line breaks, and each whitespace character is a space. */
  lemma {:induction false} JoinWordsSpaces(ws: seq<string>)
    requires AreWords(ws)
    ensures forall i :: 0 <= i < |Join(ws, " ")| && IsSpace(Join(ws, " ")[i]) ==> Join(ws, " ")[i] == ' '
    decreases |ws|
  {
    if |ws| > 1 {
      JoinWordsSpaces(ws[1..]);
      var rest := Join(ws[1..], " ");
      var s := ws[0] + " " + rest;
      forall i | 0 <= i < |s| && IsSpace(s[i]) ensures s[i] == ' ' {
        if i > |ws[0]| { assert s[i] == rest[i - |ws[0]| - 1]; }
      }
    }
  }

  function LowerChar(c: char): (r: char)
    ensures IsSpace(r) <==> IsSpace(c)
  {
    if 'A' <= c <= 'Z' then (c as int + 32) as char else c
  }

  /** str.lower() on ASCII letters. */
  function Lower(s: string): (r: string)
    ensures |r| == |s|
    ensures forall i :: 0 <= i < |s| ==> r[i] == LowerChar(s[i])
  {
    seq(|s|, i requires 0 <= i < |s| => LowerChar(s[i]))
  }

  lemma LowerIdempotent(s: string)
    ensures Lower(Lower(s)) == Lower(s)
  {
  }

  lemma LowerConcat(a: string, b: string)
    ensures Lower(a + b) == Lower(a) + Lower(b)
  {
  }

  /** Each string of the list lower-cased. */
  function LowerAll(ws: seq<string>): (r: seq<string>)
    ensures |r| == |ws| && forall i :: 0 <= i < |ws| ==> r[i] == Lower(ws[i])
  {
    seq(|ws|, i requires 0 <= i < |ws| => Lower(ws[i]))
  }

  /** Lower-casing commutes with joining on a space. */
  lemma {:induction false} LowerJoin(ws: seq<string>)
    ensures Lower(Join(ws, " ")) == Join(LowerAll(ws), " ")
    decreases |ws|
  {
    if |ws| > 1 {
      LowerJoin(ws[1..]);
      assert LowerAll(ws)[1..] == LowerAll(ws[1..]);
      LowerConcat(ws[0] + " ", Join(ws[1..], " "));
      LowerConcat(ws[0], " ");
    }
  }

  /** Lower-casing keeps words words. */
  lemma LowerAllWords(ws: seq<string>)
    requires AreWords(ws)
    ensures AreWords(LowerAll(ws))
  {
  }

  /** str.replace(pat, rep): non-overlapping occurrences, left to right. */
  function Replace(s: string, pat: string, rep: string): string
    requires pat != []
    decreases |s|
  {
    if |s| < |pat| then s
    else if s[..|pat|] == pat then rep + Replace(s[|pat|..], pat, rep)
    else [s[0]] + Replace(s[1..], pat, rep)
  }

  /** Replacing a pattern whose first character does not occur leaves the text unchanged. */
  lemma {:induction false} ReplaceAbsent(s: string, pat: string, rep: string)
    requires pat != [] && pat[0] !in s
    ensures Replace(s, pat, rep) == s
    decreases |s|
  {
    if |s| >= |pat| {
      assert s[..|pat|][0] == s[0];
      ReplaceAbsent(s[1..], pat, rep);
    }
  }

  /** Replacing a character by text that does not contain it removes every occurrence. */
  lemma {:induction false} ReplaceCharRemoves(s: string, c: char, rep: string)
    requires c !in rep
    ensures c !in Replace(s, [c], rep)
    decreases |s|
  {
    if |s| >= 1 {
      ReplaceCharRemoves(s[1..], c, rep);
      if s[..1] != [c] { assert s[0] != c; }
    }
  }

  /** Characters of the result come from the text or from the replacement. */
  lemma {:induction false} ReplaceChars(s: string, pat: string, rep: string, c: char)
    requires pat != [] && c !in s && c !in rep
    ensures c !in Replace(s, pat, rep)
    decreases |s|
  {
    if |s| >= |pat| {
      if s[..|pat|] == pat {
        ReplaceChars(s[|pat|..], pat, rep, c);
      } else {
        ReplaceChars(s[1..], pat, rep, c);
      }
    }
  }

  /** Position of the first occurrence of c in s. */
  function IndexOf(s: string, c: char): (k: nat)
    requires c in s
    ensures k < |s| && s[k] == c && c !in s[..k]
  {
    if s[0] == c then 0 else 1 + IndexOf(s[1..], c)
  }

  /** str.split(c) for a single-character separator: empty pieces are kept. */
  function SplitOn(s: string, c: char): (r: seq<string>)
    ensures |r| >= 1
    ensures forall i :: 0 <= i < |r| ==> c !in r[i]
    ensures Join(r, [c]) == s
    decreases |s|
  {
    if c !in s then [s]
    else
      var k := IndexOf(s, c);
      var rest := SplitOn(s[k + 1..], c);
      assert s == s[..k] + [c] + s[k + 1..];
      [s[..k]] + rest
  }

  lemma {:induction false} IndexOfAfter(a: string, c: char, b: string)
    requires c !in a
    ensures c in a + [c] + b && IndexOf(a + [c] + b, c) == |a|
  {
    var s := a + [c] + b;
    assert s[|a|] == c;
    if a != [] {
      assert s[1..] == a[1..] + [c] + b;
      IndexOfAfter(a[1..], c, b);
    }
  }

  /** Splitting a join on its one-character separator gives the parts back, when no part holds it. */
  lemma {:induction false} SplitOnJoin(ws: seq<string>, c: char)
    requires ws != []
    requires forall i :: 0 <= i < |ws| ==> c !in ws[i]
    ensures SplitOn(Join(ws, [c]), c) == ws
    decreases |ws|
  {
    if |ws| == 1 {
      assert Join(ws, [c]) == ws[0];
    } else {
      var s := Join(ws, [c]);
      var rest := Join(ws[1..], [c]);
      assert s == ws[0] + [c] + rest;
      IndexOfAfter(ws[0], c, rest);
      var k := |ws[0]|;
      assert s[k + 1..] == rest;
      SplitOnJoin(ws[1..], c);
      assert SplitOn(s, c) == [s[..k]] + SplitOn(rest, c);
      assert s[..k] == ws[0];
      assert ws == [ws[0]] + ws[1..];
    }
  }

  function DigitChar(d: nat): (c: char)
    requires d < 10
    ensures IsDigit(c)
  {
    ('0' as int + d) as char
  }

  function DigitValue(c: char): (d: nat)
    requires IsDigit(c)
    ensures d < 10
  {
    c as int - '0' as int
  }

  /** str(n) for a natural number: decimal digits, no leading zero. */
  function NatToString(n: nat): (r: string)
    ensures r != [] && AllDigits(r)
  {
    if n < 10 then [DigitChar(n)] else NatToString(n / 10) + [DigitChar(n % 10)]
  }

  /** str(i). */
  function IntToString(i: int): string {
    if i < 0 then "-" + NatToString(-i) else NatToString(i)
  }

  /** The value of a run of decimal digits (int() of it). */
  function DigitsValue(s: string): nat
    requires AllDigits(s)
  {
    if s == [] then 0 else DigitsValue(s[..|s| - 1]) * 10 + DigitValue(s[|s| - 1])
  }

  lemma {:induction false} NatToStringValue(n: nat)
    ensures DigitsValue(NatToString(n)) == n
  {
    if n >= 10 {
      NatToStringValue(n / 10);
      var s := NatToString(n);
      assert s[..|s| - 1] == NatToString(n / 10);
    }
  }

  /**
   * The digits of d when d is digits with single underscores between them,
   * as int() accepts them ("1_000"); None otherwise.
   */
  function UnderscoredDigits(d: string): (r: Option<string>)
    ensures r.Some? ==> r.value != [] && AllDigits(r.value)
    ensures d != [] && AllDigits(d) ==> r == Some(d)
  {
    if d == [] || !IsDigit(d[0]) then None
    else if |d| == 1 then Some(d)
    else
      var rest := if d[1] == '_' then d[2..] else d[1..];
      assert d == [d[0]] + d[1..];
      match UnderscoredDigits(rest)
      case None => None
      case Some(digits) => Some([d[0]] + digits)
  }

  /**
   * int(s) on ASCII text: surrounding whitespace, an optional sign, then
   * digits with single underscores between them.
   */
  function ParseInt(s: string): Option<int> {
    var t := Strip(s);
    if t == [] then None
    else
      var d := if t[0] == '-' || t[0] == '+' then t[1..] else t;
      match UnderscoredDigits(d)
      case None => None
      case Some(digits) =>
        var v := DigitsValue(digits);
        Some(if t[0] == '-' then -(v as int) else v)
  }

  /** int() reads "1_000" as a thousand. */
  lemma ParseIntUnderscore()
    ensures ParseInt("1_000") == Some(1000)
  {
    StripIdentity("1_000");
    assert "1_000"[1] == '_' && "1_000"[2..] == "000" && AllDigits("000");
    assert UnderscoredDigits("000") == Some("000");
    assert ['1'] + "000" == "1000";
    assert DigitsValue("1000") == 1000 by {
      assert "1000"[..3] == "100" && "100"[..2] == "10" && "10"[..1] == "1";
    }
  }

  /** int() ignores surrounding whitespace and reads the sign. */
  lemma ParseIntSpaced()
    ensures ParseInt(" -42\n") == Some(-42)
  {
    assert Strip(" -42\n") == "-42" by {
      assert " -42\n"[1..] == "-42\n";
      assert LStrip(" -42\n") == "-42\n";
      assert "-42\n"[..3] == "-42";
      StripIdentity("-42");
    }
    assert "-42"[1..] == "42" && AllDigits("42");
    assert DigitsValue("42") == 42 by { assert "42"[..1] == "4"; }
  }

  /** int() rejects a doubled, trailing or leading underscore. */
  lemma ParseIntBadUnderscores()
    ensures ParseInt("1__0") == None && ParseInt("10_") == None && ParseInt("_1") == None
  {
    StripIdentity("1__0");
    assert "1__0"[2..] == "_0";
    StripIdentity("10_");
    assert "10_"[1..] == "0_" && "0_"[2..] == "";
    StripIdentity("_1");
  }

  /** int(str(i)) == i. */
  lemma ParseIntToString(i: int)
    ensures ParseInt(IntToString(i)) == Some(i)
  {
    var n: nat := if i < 0 then -i else i;
    var d := NatToString(n);
    NatToStringValue(n);
    var s := IntToString(i);
    assert IsStripped(s);
    StripIdentity(s);
    if i < 0 {
      assert s[1..] == d;
    } else {
      assert s[0] != '-' && s[0] != '+';
    }
  }
}
