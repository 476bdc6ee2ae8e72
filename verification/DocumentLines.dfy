// The text lines of an exported document, wrapped twice, and their pages.
module DocumentLines {
  import opened Wrappers
  import opened TextWrap
  import opened Decimal

  const LINE_WIDTH: nat := 92
  const LINES_PER_PAGE: nat := 52

  // ------------------------------------------------------------------ lines that wrapping leaves alone

  predicate Proper(word: string) {
    word != [] && forall i :: 0 <= i < |word| ==> !IsSpace(word[i])
  }

  predicate AllProper(words: seq<string>) {
    forall i :: 0 <= i < |words| ==> Proper(words[i])
  }

  // The words with one space between them.
  function Joined(words: seq<string>): string {
    if words == [] then []
    else Candidate(Joined(words[..|words| - 1]), words[|words| - 1])
  }

  // At most `maximum` characters: words with single spaces, or nothing.
  predicate Tidy(line: string, maximum: nat) {
    |line| <= maximum && line == Joined(Words(line))
  }

  predicate AllTidy(lines: seq<string>, maximum: nat) {
    forall i :: 0 <= i < |lines| ==> Tidy(lines[i], maximum)
  }

  lemma {:induction false} WordsAreProper(s: string)
    ensures AllProper(Words(s))
    decreases |s|
  {
    if s != [] {
      if IsSpace(s[0]) {
        WordsAreProper(s[1..]);
      } else {
        WordsAreProper(s[WordLength(s)..]);
      }
    }
  }

  lemma {:induction false} WordLengthAt(word: string, rest: string)
    requires forall i :: 0 <= i < |word| ==> !IsSpace(word[i])
    requires rest == [] || IsSpace(rest[0])
    ensures WordLength(word + rest) == |word|
  {
    if word == [] {
      assert word + rest == rest;
    } else {
      WordLengthAt(word[1..], rest);
      assert (word + rest)[1..] == word[1..] + rest;
    }
  }

  lemma OneWord(word: string)
    requires Proper(word)
    ensures Words(word) == [word]
  {
    WordLengthAt(word, []);
    assert word + [] == word;
    assert word[..|word|] == word && word[|word|..] == [];
  }

  lemma {:induction false} WordsAppend(a: string, word: string)
    requires Proper(word)
    ensures Words(a + " " + word) == Words(a) + [word]
    decreases |a|
  {
    assert IsSpace(' ');
    hide IsSpace;
    var s := a + " " + word;
    if a == [] {
      OneWord(word);
      assert s[1..] == word;
    } else if IsSpace(a[0]) {
      WordsAppend(a[1..], word);
      assert s[1..] == a[1..] + " " + word;
    } else {
      var k := WordLength(a);
      WordsAppend(a[k..], word);
      assert s == a[..k] + (a[k..] + " " + word);
      WordLengthAt(a[..k], a[k..] + " " + word);
      assert s[..k] == a[..k] && s[k..] == a[k..] + " " + word;
    }
  }

  lemma {:induction false} WordsOfJoined(words: seq<string>)
    requires AllProper(words)
    ensures Words(Joined(words)) == words && (words != [] ==> Joined(words) != [])
  {
    if words != [] {
      var shorter, last := words[..|words| - 1], words[|words| - 1];
      WordsOfJoined(shorter);
      assert words == shorter + [last];
      if shorter == [] {
        OneWord(last);
      } else {
        WordsAppend(Joined(shorter), last);
      }
    }
  }

  lemma CandidateIsTidy(line: string, word: string, maximum: nat)
    requires line == Joined(Words(line)) && Proper(word) && |Candidate(line, word)| <= maximum
    ensures Tidy(Candidate(line, word), maximum)
  {
    WordsAreProper(line);
    var words := Words(line) + [word];
    assert words[..|words| - 1] == Words(line);
    assert Joined(words) == Candidate(line, word);
    WordsOfJoined(words);
  }

  lemma {:induction false} SlicesAreTidy(word: string, maximum: nat)
    requires maximum >= 1 && forall i :: 0 <= i < |word| ==> !IsSpace(word[i])
    ensures AllTidy(Slices(word, maximum), maximum)
  {
    if |word| <= maximum {
      if word != [] {
        CandidateIsTidy([], word, maximum);
      }
    } else {
      CandidateIsTidy([], word[..maximum], maximum);
      SlicesAreTidy(word[maximum..], maximum);
    }
  }

  lemma {:induction false} LayoutIsTidy(words: seq<string>, maximum: nat)
    requires maximum >= 1 && AllProper(words)
    ensures AllTidy(PlaceAll(words, maximum).output, maximum) && Tidy(PlaceAll(words, maximum).line, maximum)
  {
    if words != [] {
      var shorter, word := words[..|words| - 1], words[|words| - 1];
      LayoutIsTidy(shorter, maximum);
      var l := PlaceAll(shorter, maximum);
      if |word| > maximum {
        SlicesAreTidy(word, maximum);
      } else if |Candidate(l.line, word)| > maximum {
        CandidateIsTidy([], word, maximum);
      } else {
        CandidateIsTidy(l.line, word, maximum);
      }
    }
  }

  lemma {:induction false} WrapAllIsTidy(paragraphs: seq<string>, maximum: nat)
    requires maximum >= 1
    ensures AllTidy(WrapAll(paragraphs, maximum), maximum)
  {
    if paragraphs != [] {
      WrapAllIsTidy(paragraphs[..|paragraphs| - 1], maximum);
      var last := paragraphs[|paragraphs| - 1];
      WordsAreProper(last);
      LayoutIsTidy(Words(last), maximum);
    }
  }

  /** Every emitted line has at most `maximum` characters. */
  lemma LinesFit(value: string, maximum: nat)
    requires maximum >= 1
    ensures AllTidy(Wrapped(value, maximum), maximum)
    ensures forall i :: 0 <= i < |Wrapped(value, maximum)| ==> |Wrapped(value, maximum)[i]| <= maximum
  {
    WrapAllIsTidy(Paragraphs(Without(value, '\r')), maximum);
  }

  // ------------------------------------------------------------------ wrapping twice

  lemma {:induction false} JoinedHasNoBreaks(words: seq<string>)
    requires AllProper(words)
    ensures forall i :: 0 <= i < |Joined(words)| ==> Joined(words)[i] != '\n' && Joined(words)[i] != '\r'
  {
    if words != [] {
      JoinedHasNoBreaks(words[..|words| - 1]);
      assert Proper(words[|words| - 1]) && IsSpace('\n') && IsSpace('\r');
    }
  }

  lemma {:induction false} NothingToRemove(s: string)
    requires forall i :: 0 <= i < |s| ==> s[i] != '\n' && s[i] != '\r'
    ensures Without(s, '\r') == s && Paragraphs(s) == [s]
  {
    if s != [] {
      NothingToRemove(s[1..]);
    }
  }

  lemma {:induction false} FittingWordsStayOnOneLine(words: seq<string>, maximum: nat)
    requires maximum >= 1 && AllProper(words) && |Joined(words)| <= maximum
    ensures PlaceAll(words, maximum) == Layout([], Joined(words))
  {
    if words != [] {
      FittingWordsStayOnOneLine(words[..|words| - 1], maximum);
    }
  }

  /** A line that wrapping emitted wraps to itself. */
  lemma WrappingATidyLine(line: string, maximum: nat)
    requires maximum >= 1 && Tidy(line, maximum)
    ensures Wrapped(line, maximum) == [line]
  {
    var words := Words(line);
    WordsAreProper(line);
    JoinedHasNoBreaks(words);
    NothingToRemove(line);
    FittingWordsStayOnOneLine(words, maximum);
    assert [line][..0] == [];
    WordsOfJoined(words);
    assert WrapAll([line], maximum) == [] + WrappedParagraph(line, maximum);
  }

  // lines.flatMap(wrap)
  function WrapEach(lines: seq<string>, maximum: nat): seq<string>
    requires maximum >= 1
  {
    if lines == [] then [] else WrapEach(lines[..|lines| - 1], maximum) + Wrapped(lines[|lines| - 1], maximum)
  }

  lemma Regroup(a: seq<string>, b: seq<string>, c: seq<string>)
    ensures (a + b) + c == a + (b + c)
  {
  }

  lemma WrapEachNext(lines: seq<string>, line: string, maximum: nat)
    requires maximum >= 1
    ensures WrapEach(lines + [line], maximum) == WrapEach(lines, maximum) + Wrapped(line, maximum)
  {
    assert (lines + [line])[..|lines|] == lines;
  }

  lemma {:induction false} WrapEachAppend(a: seq<string>, b: seq<string>, maximum: nat)
    requires maximum >= 1
    ensures WrapEach(a + b, maximum) == WrapEach(a, maximum) + WrapEach(b, maximum)
  {
    if b == [] {
      assert a + b == a;
    } else {
      var shorter, last := b[..|b| - 1], b[|b| - 1];
      assert b == shorter + [last];
      WrapEachAppend(a, shorter, maximum);
      calc {
        WrapEach(a + b, maximum);
        { assert a + b == (a + shorter) + [last]; WrapEachNext(a + shorter, last, maximum); }
        (WrapEach(a, maximum) + WrapEach(shorter, maximum)) + Wrapped(last, maximum);
        { Regroup(WrapEach(a, maximum), WrapEach(shorter, maximum), Wrapped(last, maximum)); }
        WrapEach(a, maximum) + (WrapEach(shorter, maximum) + Wrapped(last, maximum));
        { WrapEachNext(shorter, last, maximum); }
        WrapEach(a, maximum) + WrapEach(b, maximum);
      }
    }
  }

  lemma {:induction false} TidyLinesStay(lines: seq<string>, maximum: nat)
    requires maximum >= 1 && AllTidy(lines, maximum)
    ensures WrapEach(lines, maximum) == lines
  {
    if lines != [] {
      var shorter, last := lines[..|lines| - 1], lines[|lines| - 1];
      assert lines == shorter + [last];
      calc {
        WrapEach(lines, maximum);
        { WrapEachNext(shorter, last, maximum); }
        WrapEach(shorter, maximum) + Wrapped(last, maximum);
        { TidyLinesStay(shorter, maximum); WrappingATidyLine(last, maximum); }
        shorter + [last];
      }
    }
  }

  lemma {:induction false} WrapEachIsTidy(lines: seq<string>, maximum: nat)
    requires maximum >= 1
    ensures AllTidy(WrapEach(lines, maximum), maximum)
  {
    if lines != [] {
      WrapEachIsTidy(lines[..|lines| - 1], maximum);
      LinesFit(lines[|lines| - 1], maximum);
    }
  }

  // ------------------------------------------------------------------ the document

  // `cells` are the text values row[column], column by column; `filters` is the printed JSON.
  datatype Document = Document(
    exportId: string, title: string, generatedAt: string, tenantName: string, institutionName: Option<string>,
    columns: seq<string>, cells: seq<seq<string>>, filters: string)

  predicate Rectangular(document: Document) {
    forall i :: 0 <= i < |document.cells| ==> |document.cells[i]| == |document.columns|
  }

  function JoinWith(separator: string, parts: seq<string>): string {
    if parts == [] then []
    else if |parts| == 1 then parts[0]
    else JoinWith(separator, parts[..|parts| - 1]) + separator + parts[|parts| - 1]
  }

  lemma {:induction false} JoinFromFront(separator: string, parts: seq<string>)
    requires |parts| >= 2
    ensures JoinWith(separator, parts) == parts[0] + (separator + JoinWith(separator, parts[1..]))
  {
    var shorter, last := parts[..|parts| - 1], parts[|parts| - 1];
    if |parts| > 2 {
      JoinFromFront(separator, shorter);
      assert shorter[1..] == parts[1..][..|parts| - 2];
    }
  }

  function Heading(document: Document): seq<string> {
    var institution := document.institutionName;
    [document.title,
     document.tenantName + (if institution.Some? && institution.value != "" then " | " + institution.value else ""),
     "Generated: " + document.generatedAt,
     "Export ID: " + document.exportId,
     "Rows: " + Numeral(|document.cells|),
     "Filters: " + document.filters,
     "",
     JoinWith(" | ", document.columns),
     seq(LINE_WIDTH, i => '-')]
  }

  function RenderedRow(columns: seq<string>, cells: seq<string>): string
    requires |columns| == |cells|
  {
    JoinWith(" | ", seq(|columns|, i requires 0 <= i < |columns| => columns[i] + ": " + cells[i]))
  }

  function RenderedRows(document: Document): seq<string>
    requires Rectangular(document)
  {
    seq(|document.cells|, i requires 0 <= i < |document.cells| => RenderedRow(document.columns, document.cells[i]))
  }

  function Closing(document: Document): seq<string> {
    if document.cells == [] then ["No records matched the export filters."] else []
  }

  // Pushes the wrapped form of each line.
  method PushWrapped(before: seq<string>, lines: seq<string>) returns (output: seq<string>)
    ensures output == before + WrapEach(lines, LINE_WIDTH)
  {
    hide Wrapped;
    output := before;
    for i := 0 to |lines|
      invariant output == before + WrapEach(lines[..i], LINE_WIDTH)
    {
      assert lines[..i + 1] == lines[..i] + [lines[i]];
      WrapEachNext(lines[..i], lines[i], LINE_WIDTH);
      var wrapped := Wrap(lines[i], LINE_WIDTH);
      Regroup(before, WrapEach(lines[..i], LINE_WIDTH), wrapped);
      output := output + wrapped;
    }
    assert lines[..|lines|] == lines;
  }

  method Lines(document: Document) returns (lines: seq<string>)
    requires Rectangular(document)
    ensures lines == WrapEach(Heading(document) + WrapEach(RenderedRows(document), LINE_WIDTH) + Closing(document),
            LINE_WIDTH)
  {
    var collected := PushWrapped(Heading(document), RenderedRows(document));
    if |document.cells| == 0 {
      collected := collected + ["No records matched the export filters."];
    }
    assert collected == Heading(document) + WrapEach(RenderedRows(document), LINE_WIDTH) + Closing(document);
    lines := PushWrapped([], collected);
  }

  /** Wrapping the rows before wrapping everything changes nothing. */
  lemma DoubleWrappingIsWrapping(document: Document)
    requires Rectangular(document)
    ensures var rows := RenderedRows(document);
            WrapEach(Heading(document) + WrapEach(rows, LINE_WIDTH) + Closing(document), LINE_WIDTH) ==
            WrapEach(Heading(document) + rows + Closing(document), LINE_WIDTH)
  {
    var rows := RenderedRows(document);
    WrapEachIsTidy(rows, LINE_WIDTH);
    TidyLinesStay(WrapEach(rows, LINE_WIDTH), LINE_WIDTH);
    WrapEachAppend(Heading(document), WrapEach(rows, LINE_WIDTH), LINE_WIDTH);
    WrapEachAppend(Heading(document) + WrapEach(rows, LINE_WIDTH), Closing(document), LINE_WIDTH);
    WrapEachAppend(Heading(document), rows, LINE_WIDTH);
    WrapEachAppend(Heading(document) + rows, Closing(document), LINE_WIDTH);
  }

  // ------------------------------------------------------------------ pages

  function PageCount(lines: nat): nat {
    var full := (lines + LINES_PER_PAGE - 1) / LINES_PER_PAGE;
    if full >= 1 then full else 1
  }

  function Page(lines: seq<string>, index: nat): seq<string> {
    var from := if index * LINES_PER_PAGE <= |lines| then index * LINES_PER_PAGE else |lines|;
    var to := if (index + 1) * LINES_PER_PAGE <= |lines| then (index + 1) * LINES_PER_PAGE else |lines|;
    lines[from..to]
  }

  function Pages(lines: seq<string>): (pages: seq<seq<string>>)
    ensures |pages| == PageCount(|lines|) >= 1
  {
    seq(PageCount(|lines|), index requires 0 <= index => Page(lines, index))
  }

  function FirstPages(lines: seq<string>, n: nat): seq<string> {
    if n == 0 then [] else FirstPages(lines, n - 1) + Page(lines, n - 1)
  }

  lemma {:induction false} PagesAdvance(lines: seq<string>, n: nat)
    ensures FirstPages(lines, n) == lines[..if n * LINES_PER_PAGE <= |lines| then n * LINES_PER_PAGE else |lines|]
  {
    if n > 0 {
      PagesAdvance(lines, n - 1);
    }
  }

  /** The pages, put together again, are all the lines; all but the last have 52, and no page is empty
      unless the document is. */
  lemma PagesHoldAllLines(lines: seq<string>)
    ensures FirstPages(lines, |Pages(lines)|) == lines
    ensures forall i :: 0 <= i < |Pages(lines)| ==>
            && |Pages(lines)[i]| <= 52 && (lines != [] ==> Pages(lines)[i] != [])
            && (i < |Pages(lines)| - 1 ==> |Pages(lines)[i]| == 52)
  {
    PagesAdvance(lines, |Pages(lines)|);
    assert lines[..|lines|] == lines;
  }
}
