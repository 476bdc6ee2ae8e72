// The escaping passes of the PDF writer and of HTML notifications, and the readers that undo them.
module Escape {
  import opened Wrappers
  import opened Strings

  // replaceAll of one character.
  function ReplaceAll(s: string, c: char, image: string): string {
    if s == [] then [] else (if s[0] == c then image else [s[0]]) + ReplaceAll(s[1..], c, image)
  }

  // Every character replaced at once.
  function Substituted(s: string, f: char -> string): string {
    if s == [] then [] else f(s[0]) + Substituted(s[1..], f)
  }

  lemma {:induction false} ReplaceAppend(a: string, b: string, c: char, image: string)
    ensures ReplaceAll(a + b, c, image) == ReplaceAll(a, c, image) + ReplaceAll(b, c, image)
  {
    if a == [] {
      assert a + b == b;
    } else {
      var head := if a[0] == c then image else [a[0]];
      calc {
        ReplaceAll(a + b, c, image);
        { assert (a + b)[1..] == a[1..] + b; }
        head + ReplaceAll(a[1..] + b, c, image);
        { ReplaceAppend(a[1..], b, c, image); }
        head + (ReplaceAll(a[1..], c, image) + ReplaceAll(b, c, image));
        (head + ReplaceAll(a[1..], c, image)) + ReplaceAll(b, c, image);
      }
    }
  }

  // One more pass over a substitution is the substitution of the passed images.
  lemma {:induction false} PassFuses(s: string, f: char -> string, g: char -> string, c: char, image: string)
    requires forall x: char :: g(x) == ReplaceAll(f(x), c, image)
    ensures ReplaceAll(Substituted(s, f), c, image) == Substituted(s, g)
  {
    if s != [] {
      PassFuses(s[1..], f, g, c, image);
      ReplaceAppend(f(s[0]), Substituted(s[1..], f), c, image);
    }
  }

  lemma {:induction false} FirstPass(s: string, f: char -> string, c: char, image: string)
    requires forall x: char :: f(x) == if x == c then image else [x]
    ensures ReplaceAll(s, c, image) == Substituted(s, f)
  {
    if s != [] {
      FirstPass(s[1..], f, c, image);
    }
  }

  lemma {:induction false} Untouched(s: string, c: char, image: string)
    requires forall i :: 0 <= i < |s| ==> s[i] != c
    ensures ReplaceAll(s, c, image) == s
  {
    if s != [] {
      Untouched(s[1..], c, image);
    }
  }

  lemma OneCharacter(x: char, c: char, image: string)
    ensures ReplaceAll([x], c, image) == if x == c then image else [x]
  {
    assert [x][1..] == [];
    assert ReplaceAll([x], c, image) == (if x == c then image else [x]) + [];
  }

  // ------------------------------------------------------------------ PDF literal strings

  function PdfEscape(s: string): string {
    ReplaceAll(ReplaceAll(ReplaceAll(s, '\\', "\\\\"), '(', "\\("), ')', "\\)")
  }

  function PdfImage(c: char): string {
    if c == '\\' || c == '(' || c == ')' then ['\\', c] else [c]
  }

  /** The three passes are one simultaneous substitution. */
  lemma PdfPassesAreOne(s: string)
    ensures PdfEscape(s) == Substituted(s, PdfImage)
  {
    var f := (x: char) => if x == '\\' then "\\\\" else [x];
    var g := (x: char) => if x == '\\' then "\\\\" else if x == '(' then "\\(" else [x];
    FirstPass(s, f, '\\', "\\\\");
    forall x: char
      ensures g(x) == ReplaceAll(f(x), '(', "\\(")
    {
      Untouched("\\\\", '(', "\\(");
      OneCharacter(x, '(', "\\(");
    }
    PassFuses(s, f, g, '(', "\\(");
    forall x: char
      ensures PdfImage(x) == ReplaceAll(g(x), ')', "\\)")
    {
      Untouched("\\\\", ')', "\\)");
      Untouched("\\(", ')', "\\)");
      OneCharacter(x, ')', "\\)");
    }
    PassFuses(s, g, PdfImage, ')', "\\)");
  }

  predicate IsOctal(c: char) {
    '0' <= c <= '7'
  }

  function OctalLength(s: string): nat {
    if |s| >= 1 && IsOctal(s[0]) then
      if |s| >= 2 && IsOctal(s[1]) then if |s| >= 3 && IsOctal(s[2]) then 3 else 2 else 1
    else 0
  }

  function OctalDigit(c: char): nat
    requires IsOctal(c)
  {
    c as int - '0' as int
  }

  function OctalValue(s: string): nat
    requires forall i :: 0 <= i < |s| ==> IsOctal(s[i])
  {
    if s == [] then 0 else 8 * OctalValue(s[..|s| - 1]) + OctalDigit(s[|s| - 1])
  }

  // What a backslash sequence stands for, and how many characters follow the backslash.
  function Unescaped(s: string): (string, nat)
    requires s != []
  {
    match s[0]
    case 'n' => ("\n", 1)
    case 'r' => ("\r", 1)
    case 't' => ("\t", 1)
    case 'b' => ([8 as char], 1)
    case 'f' => ([12 as char], 1)
    case '\n' => ("", 1)
    case '\r' => ("", if |s| >= 2 && s[1] == '\n' then 2 else 1)
    case _ =>
      var n := OctalLength(s);
      if n > 0 then ([(OctalValue(s[..n]) % 256) as char], n) else ([s[0]], 1)
  }

  /** The literal-string reader of section 7.3.4.2 of ISO 32000-1, past the opening parenthesis:
      the string and what follows its closing parenthesis. */
  function ReadLiteral(s: string, depth: nat): Option<(string, string)>
    decreases |s|
  {
    if s == [] then None
    else if s[0] == ')' && depth == 0 then Some(([], s[1..]))
    else if s[0] == '\\' then
      if |s| == 1 then None
      else
        var (text, n) := Unescaped(s[1..]);
        var rest := ReadLiteral(s[1 + n..], depth);
        if rest.None? then None else Some((text + rest.value.0, rest.value.1))
    else if s[0] == '\r' then
      var rest := ReadLiteral(if |s| >= 2 && s[1] == '\n' then s[2..] else s[1..], depth);
      if rest.None? then None else Some(("\n" + rest.value.0, rest.value.1))
    else
      var rest := ReadLiteral(s[1..], if s[0] == '(' then depth + 1 else if s[0] == ')' then depth - 1 else depth);
      if rest.None? then None else Some(([s[0]] + rest.value.0, rest.value.1))
  }

  // The text with every end of line, CR LF or CR alone, as one LF.
  function Newlines(s: string): string {
    if s == [] then []
    else if s[0] == '\r' then "\n" + Newlines(if |s| >= 2 && s[1] == '\n' then s[2..] else s[1..])
    else [s[0]] + Newlines(s[1..])
  }

  // A special character of PDF strings stands for itself after a backslash.
  lemma UnescapedSpecial(c: char, after: string)
    requires c == '\\' || c == '(' || c == ')'
    ensures Unescaped([c] + after) == ([c], 1)
  {
    assert OctalLength([c] + after) == 0;
  }

  lemma ReadImage(c: char, after: string)
    requires c != '\r' && ReadLiteral(after, 0).Some?
    ensures ReadLiteral(PdfImage(c) + after, 0) ==
            Some(([c] + ReadLiteral(after, 0).value.0, ReadLiteral(after, 0).value.1))
  {
    var all := PdfImage(c) + after;
    if |PdfImage(c)| == 2 {
      assert all[1..] == [c] + after;
      UnescapedSpecial(c, after);
      assert all[2..] == after;
    } else {
      assert all[1..] == after;
    }
  }

  // A line feed is written for the line feed of the text only.
  lemma NextImage(s: string, rest: string)
    ensures var written := Substituted(s, PdfImage) + ")" + rest;
            written[0] == '\n' <==> s != [] && s[0] == '\n'
  {
    if s != [] {
      assert (Substituted(s, PdfImage) + ")" + rest)[0] == PdfImage(s[0])[0];
    }
  }

  lemma {:induction false} ReadSubstituted(s: string, rest: string)
    ensures ReadLiteral(Substituted(s, PdfImage) + ")" + rest, 0) == Some((Newlines(s), rest))
    decreases |s|
  {
    var written := Substituted(s, PdfImage) + ")" + rest;
    if s == [] {
      assert written == ")" + rest && (")" + rest)[1..] == rest;
    } else {
      var after := Substituted(s[1..], PdfImage) + ")" + rest;
      assert written == PdfImage(s[0]) + after;
      if s[0] != '\r' {
        ReadSubstituted(s[1..], rest);
        ReadImage(s[0], after);
      } else {
        assert written[1..] == after;
        NextImage(s[1..], rest);
        if |s| >= 2 && s[1] == '\n' {
          var later := Substituted(s[2..], PdfImage) + ")" + rest;
          assert s[1..][1..] == s[2..];
          assert after == "\n" + later && written[2..] == later;
          ReadSubstituted(s[2..], rest);
        } else {
          ReadSubstituted(s[1..], rest);
        }
      }
    }
  }

  predicate HasReturn(s: string) {
    exists i :: 0 <= i < |s| && s[i] == '\r'
  }

  lemma {:induction false} NewlinesChange(s: string)
    ensures |Newlines(s)| <= |s|
    ensures Newlines(s) == s <==> !HasReturn(s)
    decreases |s|
  {
    if s != [] {
      if s[0] == '\r' {
        NewlinesChange(if |s| >= 2 && s[1] == '\n' then s[2..] else s[1..]);
      } else {
        NewlinesChange(s[1..]);
        assert HasReturn(s[1..]) ==> HasReturn(s) by {
          if i :| 0 <= i < |s[1..]| && s[1..][i] == '\r' {
            assert s[i + 1] == '\r';
          }
        }
        assert HasReturn(s) ==> HasReturn(s[1..]) by {
          if i :| 0 <= i < |s| && s[i] == '\r' {
            assert s[1..][i - 1] == '\r';
          }
        }
        assert s == [s[0]] + s[1..];
      }
    }
  }

  /** A PDF reader gets any escaped string with its ends of lines as line feeds, so unchanged if
      and only if it has no carriage return, and stops at the right closing parenthesis. */
  lemma PdfLiteralRoundTrip(s: string, rest: string)
    ensures var read := ReadLiteral(PdfEscape(s) + ")" + rest, 0);
            read == Some((Newlines(s), rest)) && (read == Some((s, rest)) <==> !HasReturn(s))
  {
    PdfPassesAreOne(s);
    ReadSubstituted(s, rest);
    NewlinesChange(s);
  }

  // ------------------------------------------------------------------ HTML text

  function EscapeHtml(s: string): string {
    ReplaceAll(ReplaceAll(ReplaceAll(ReplaceAll(ReplaceAll(s, '&', "&amp;"), '<', "&lt;"), '>', "&gt;"),
        '"', "&quot;"), '\'', "&#39;")
  }

  function HtmlImage(c: char): string {
    match c
    case '&' => "&amp;"
    case '<' => "&lt;"
    case '>' => "&gt;"
    case '"' => "&quot;"
    case '\'' => "&#39;"
    case _ => [c]
  }

  // The image after the first n passes.
  function HtmlPartial(n: nat): char -> string {
    (c: char) =>
      if c == '&' || (n >= 2 && c == '<') || (n >= 3 && c == '>') || (n >= 4 && c == '"') || (n >= 5 && c == '\'')
      then HtmlImage(c) else [c]
  }

  lemma HtmlPass(s: string, n: nat, c: char)
    requires (n == 1 && c == '<') || (n == 2 && c == '>') || (n == 3 && c == '"') || (n == 4 && c == '\'')
    ensures ReplaceAll(Substituted(s, HtmlPartial(n)), c, HtmlImage(c)) == Substituted(s, HtmlPartial(n + 1))
  {
    forall x: char
      ensures HtmlPartial(n + 1)(x) == ReplaceAll(HtmlPartial(n)(x), c, HtmlImage(c))
    {
      if HtmlPartial(n)(x) == [x] {
        OneCharacter(x, c, HtmlImage(c));
      } else {
        Untouched(HtmlPartial(n)(x), c, HtmlImage(c));
      }
    }
    PassFuses(s, HtmlPartial(n), HtmlPartial(n + 1), c, HtmlImage(c));
  }

  lemma {:induction false} SubstitutedSame(s: string, f: char -> string, g: char -> string)
    requires forall x: char :: f(x) == g(x)
    ensures Substituted(s, f) == Substituted(s, g)
  {
    if s != [] {
      SubstitutedSame(s[1..], f, g);
    }
  }

  /** The five passes are one simultaneous substitution. */
  lemma HtmlPassesAreOne(s: string)
    ensures EscapeHtml(s) == Substituted(s, HtmlImage)
  {
    FirstPass(s, HtmlPartial(1), '&', "&amp;");
    HtmlPass(s, 1, '<');
    HtmlPass(s, 2, '>');
    HtmlPass(s, 3, '"');
    HtmlPass(s, 4, '\'');
    SubstitutedSame(s, HtmlPartial(5), HtmlImage);
  }

  // The character that the text begins with, and how many characters spell it; a reader of the
  // five character references, for which any other text stands for itself.
  function FirstCharacter(s: string): (char, nat)
    requires s != []
    ensures 1 <= FirstCharacter(s).1 <= |s|
  {
    if StartsWith(s, "&amp;") then ('&', 5)
    else if StartsWith(s, "&lt;") then ('<', 4)
    else if StartsWith(s, "&gt;") then ('>', 4)
    else if StartsWith(s, "&quot;") then ('"', 6)
    else if StartsWith(s, "&#39;") then ('\'', 5)
    else (s[0], 1)
  }

  function UnescapeHtml(s: string): string
    decreases |s|
  {
    if s == [] then [] else [FirstCharacter(s).0] + UnescapeHtml(s[FirstCharacter(s).1..])
  }

  lemma FirstOfImage(c: char, rest: string)
    ensures FirstCharacter(HtmlImage(c) + rest) == (c, |HtmlImage(c)|)
  {
    var image, s := HtmlImage(c), HtmlImage(c) + rest;
    Parts(image, rest);
    var i := if |image| > 1 then 1 else 0;
    assert s[i] == image[i];
    if c != '&' { Unlike(s, "&amp;", i); }
    if c != '<' { Unlike(s, "&lt;", i); }
    if c != '>' { Unlike(s, "&gt;", i); }
    if c != '"' { Unlike(s, "&quot;", i); }
    if c != '\'' { Unlike(s, "&#39;", i); }
    hide StartsWith;
  }

  lemma UnescapeOne(c: char, rest: string)
    ensures UnescapeHtml(HtmlImage(c) + rest) == [c] + UnescapeHtml(rest)
  {
    FirstOfImage(c, rest);
    assert (HtmlImage(c) + rest)[|HtmlImage(c)|..] == rest;
  }

  lemma {:induction false} UnescapeSubstituted(s: string)
    ensures UnescapeHtml(Substituted(s, HtmlImage)) == s
  {
    if s != [] {
      UnescapeSubstituted(s[1..]);
      UnescapeOne(s[0], Substituted(s[1..], HtmlImage));
      assert s == [s[0]] + s[1..];
    }
  }

  // A character that can open or close a tag or an attribute value.
  predicate IsMarkup(c: char) {
    c == '<' || c == '>' || c == '"' || c == '\''
  }

  predicate Inert(s: string) {
    forall i :: 0 <= i < |s| ==> !IsMarkup(s[i])
  }

  lemma ImageIsInert(c: char)
    ensures Inert(HtmlImage(c))
  {
  }

  lemma {:induction false} SubstitutedIsInert(s: string)
    ensures Inert(Substituted(s, HtmlImage))
  {
    if s != [] {
      ImageIsInert(s[0]);
      SubstitutedIsInert(s[1..]);
    }
  }

  /** Unescaping gives the text back, and the escaped text has no markup character. */
  lemma HtmlRoundTrip(s: string)
    ensures UnescapeHtml(EscapeHtml(s)) == s && Inert(EscapeHtml(s))
  {
    HtmlPassesAreOne(s);
    UnescapeSubstituted(s);
    SubstitutedIsInert(s);
  }
}
