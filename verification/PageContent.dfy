/**
  The content stream of one page, and what a reader of text operators sees of it.
  Every string here is written in an encoding of one byte per character, so a position in the
  text is a position in the file.
*/
module PageContent {
  import opened Wrappers
  import opened Decimal
  import opened Escape
  import opened TextOperators
  import Ascii

  // What is shown of each line; `normal` stands for its Unicode normalisation.
  function Shown(lines: seq<string>, normal: string -> string): seq<string> {
    seq(|lines|, i requires 0 <= i < |lines| => Ascii.Printed(normal(lines[i])))
  }

  lemma ShownHasNoReturns(lines: seq<string>, normal: string -> string)
    ensures NoReturns(Shown(lines, normal))
  {
    hide Ascii.Printed;
    forall i | 0 <= i < |lines| {
      Ascii.PassesAreOne(normal(lines[i]));
    }
  }

  // A literal string with its show operator.
  function Show(text: string): string {
    "(" + PdfEscape(text) + ") Tj"
  }

  const NEXT_LINE: string := "\n0 -14 Td "
  const BEFORE_LINES: string := "BT\n/F1 9 Tf\n48 790 Td\n"
  const BEFORE_FOOTER: string := "\nET\nBT\n/F1 8 Tf\n48 28 Td\n"
  const AFTER_FOOTER: string := "\nET"

  function ShowLines(texts: seq<string>): string {
    if texts == [] then []
    else if |texts| == 1 then Show(texts[0])
    else Show(texts[0]) + (NEXT_LINE + ShowLines(texts[1..]))
  }

  function Footer(pageNumber: nat, pageCount: nat): string {
    "Veza Learning Cloud | Page " + Numeral(pageNumber) + " of " + Numeral(pageCount)
  }

  function ContentStream(texts: seq<string>, pageNumber: nat, pageCount: nat): string {
    BEFORE_LINES + (ShowLines(texts) + (BEFORE_FOOTER + ("(" + Footer(pageNumber, pageCount) + ") Tj" + AFTER_FOOTER)))
  }

  // ------------------------------------------------------------------ reading the page back

  predicate NoReturns(texts: seq<string>) {
    forall i :: 0 <= i < |texts| ==> !HasReturn(texts[i])
  }

  lemma TjIsAWord(next: char)
    ensures IsWord("Tj") && IsWhite(' ') && (IsWhite(next) ==> !IsRegular(next))
  {
  }

  lemma ShowTokens(text: string, rest: string)
    requires !HasReturn(text) && rest != [] && IsWhite(rest[0])
    ensures Tokens(Show(text) + rest) == Before([Str(text), Word("Tj")], Tokens(rest))
  {
    hide Tokens, PdfEscape, HasReturn, IsWhite;
    TjIsAWord(rest[0]);
    var after := " " + ("Tj" + rest);
    assert Show(text) + rest == "(" + (PdfEscape(text) + (")" + after));
    StringIsRead(text, after);
    WhiteIsSkipped(' ', "Tj" + rest);
    WordIsRead("Tj", rest);
    if Tokens(rest).Some? {
      assert [Str(text)] + ([Word("Tj")] + Tokens(rest).value) == [Str(text), Word("Tj")] + Tokens(rest).value;
    }
  }

  lemma StepIsSpaced()
    ensures var words := [("0", ' '), ("-14", ' '), ("Td", ' ')];
            && Spaced(words) == "0 -14 Td " && TokensOf(words) == [Word("0"), Word("-14"), Word("Td")]
            && forall i :: 0 <= i < |words| ==> IsWord(words[i].0) && IsWhite(words[i].1)
  {
    assert IsWord("0") && IsWord("-14") && IsWord("Td") && IsWhite(' ');
    hide IsWord, IsWhite;
    SpacedFromFront("0", ' ', [("-14", ' '), ("Td", ' ')]);
    SpacedFromFront("-14", ' ', [("Td", ' ')]);
    SpacedFromFront("Td", ' ', []);
    assert Spaced([]) == [] && [("Td", ' ')] + [] == [("Td", ' ')];
    hide Spaced;
    assert [("-14", ' ')] + [("Td", ' ')] == [("-14", ' '), ("Td", ' ')];
    assert [("0", ' ')] + [("-14", ' '), ("Td", ' ')] == [("0", ' '), ("-14", ' '), ("Td", ' ')];
  }

  lemma NextLineTokens(rest: string)
    ensures Tokens(NEXT_LINE + rest) == Before([Word("0"), Word("-14"), Word("Td")], Tokens(rest))
  {
    hide Tokens, Spaced, TokensOf, IsWord, Before;
    var words := [("0", ' '), ("-14", ' '), ("Td", ' ')];
    StepIsSpaced();
    assert NEXT_LINE + rest == "\n" + (Spaced(words) + rest);
    WhiteIsSkipped('\n', Spaced(words) + rest);
    WordsAreRead(words, rest);
  }

  function LineTokens(texts: seq<string>): seq<Token> {
    if texts == [] then []
    else if |texts| == 1 then [Str(texts[0]), Word("Tj")]
    else [Str(texts[0]), Word("Tj"), Word("0"), Word("-14"), Word("Td")] + LineTokens(texts[1..])
  }

  lemma {:induction false} LinesAreRead(texts: seq<string>, rest: string)
    requires NoReturns(texts) && rest != [] && IsWhite(rest[0])
    ensures Tokens(ShowLines(texts) + rest) == Before(LineTokens(texts), Tokens(rest))
  {
    hide Tokens, Show;
    if texts == [] {
      assert ShowLines(texts) + rest == rest;
      NothingBefore(Tokens(rest));
    } else if |texts| == 1 {
      ShowTokens(texts[0], rest);
    } else {
      var after := ShowLines(texts[1..]) + rest;
      Associate(Show(texts[0]), NEXT_LINE, ShowLines(texts[1..]), rest);
      ShowTokens(texts[0], NEXT_LINE + after);
      NextLineTokens(after);
      LinesAreRead(texts[1..], rest);
      BeforeBoth([Word("0"), Word("-14"), Word("Td")], LineTokens(texts[1..]), Tokens(rest));
      BeforeBoth([Str(texts[0]), Word("Tj")], [Word("0"), Word("-14"), Word("Td")] + LineTokens(texts[1..]),
          Tokens(rest));
      assert [Str(texts[0]), Word("Tj")] + ([Word("0"), Word("-14"), Word("Td")] + LineTokens(texts[1..])) ==
             LineTokens(texts);
    }
  }

  lemma Associate(a: string, b: string, c: string, d: string)
    ensures (a + (b + c)) + d == a + (b + (c + d))
  {
  }

  // Opens a text object in the given size at the given place.
  function Setting(size: string, x: string, y: string): seq<(string, char)> {
    [("BT", '\n'), ("/F1", ' '), (size, ' '), ("Tf", '\n'), (x, ' '), (y, ' '), ("Td", '\n')]
  }

  lemma SettingIsRead(size: string, x: string, y: string, rest: string)
    requires IsWord(size) && IsWord(x) && IsWord(y)
    ensures Tokens(Spaced(Setting(size, x, y)) + rest) == Before(TokensOf(Setting(size, x, y)), Tokens(rest))
  {
    SettingWords(size, x, y);
    hide IsWord, IsWhite, Setting, Tokens;
    WordsAreRead(Setting(size, x, y), rest);
  }

  lemma SettingWords(size: string, x: string, y: string)
    requires IsWord(size) && IsWord(x) && IsWord(y)
    ensures forall i :: 0 <= i < |Setting(size, x, y)| ==>
            IsWord(Setting(size, x, y)[i].0) && IsWhite(Setting(size, x, y)[i].1)
  {
    assert IsWord("BT") && IsWord("/F1") && IsWord("Tf") && IsWord("Td") && IsWhite('\n') && IsWhite(' ');
    hide IsWord, IsWhite;
  }

  lemma SpacedFromFront(w: string, c: char, words: seq<(string, char)>)
    ensures Spaced([(w, c)] + words) == w + ([c] + Spaced(words))
  {
    assert ([(w, c)] + words)[1..] == words;
  }

  lemma SettingIsSpaced(size: string, x: string, y: string)
    ensures Spaced(Setting(size, x, y)) ==
            "BT" + ("\n" + ("/F1" + (" " + (size + (" " + ("Tf" + ("\n" + (x + (" " + (y + (" " + ("Td" + ("\n" +
            [])))))))))))))
  {
    var td := [("Td", '\n')] + [];
    var atY := [(y, ' ')] + td;
    var atX := [(x, ' ')] + atY;
    var tf := [("Tf", '\n')] + atX;
    var atSize := [(size, ' ')] + tf;
    var font := [("/F1", ' ')] + atSize;
    assert Setting(size, x, y) == [("BT", '\n')] + font;
    assert Spaced([]) == [];
    hide *;
    SpacedFromFront("Td", '\n', []);
    SpacedFromFront(y, ' ', td);
    SpacedFromFront(x, ' ', atY);
    SpacedFromFront("Tf", '\n', atX);
    SpacedFromFront(size, ' ', tf);
    SpacedFromFront("/F1", ' ', atSize);
    SpacedFromFront("BT", '\n', font);
  }

  lemma OpeningIsASetting()
    ensures BEFORE_LINES == Spaced(Setting("9", "48", "790"))
  {
    SettingIsSpaced("9", "48", "790");
    hide Spaced, Setting;
    assert "48" + (" " + ("790" + (" " + ("Td" + ("\n" + []))))) == "48 790 Td\n";
    assert "BT" + ("\n" + ("/F1" + (" " + ("9" + (" " + ("Tf" + ("\n" + "48 790 Td\n"))))))) == BEFORE_LINES;
  }

  lemma FooterSetting()
    ensures Spaced(Setting("8", "48", "28")) == "BT\n/F1 8 Tf\n48 28 Td\n"
  {
    SettingIsSpaced("8", "48", "28");
    hide Spaced, Setting;
    assert "48" + (" " + ("28" + (" " + ("Td" + ("\n" + []))))) == "48 28 Td\n";
    assert "BT" + ("\n" + ("/F1" + (" " + ("8" + (" " + ("Tf" + ("\n" + "48 28 Td\n"))))))) ==
           "BT\n/F1 8 Tf\n48 28 Td\n";
  }

  lemma FooterIsASetting()
    ensures BEFORE_FOOTER == "\n" + ("ET" + ("\n" + Spaced(Setting("8", "48", "28"))))
  {
    FooterSetting();
    hide Spaced, Setting;
    assert "\n" + ("ET" + ("\n" + "BT\n/F1 8 Tf\n48 28 Td\n")) == BEFORE_FOOTER;
  }

  // The footer's tokens, from the end of the lines on.
  function FooterTokens(footer: string): seq<Token> {
    [Word("ET")] + (TokensOf(Setting("8", "48", "28")) + [Str(footer), Word("Tj"), Word("ET")])
  }

  lemma LastTokens()
    ensures AFTER_FOOTER != [] && IsWhite(AFTER_FOOTER[0]) && Tokens(AFTER_FOOTER) == Some([Word("ET")])
  {
    assert AFTER_FOOTER == ['\n'] + "ET" && "ET" + "" == "ET";
    assert IsWord("ET") && Tokens("") == Some([]);
    hide Tokens;
    WhiteIsSkipped('\n', "ET");
    WordIsRead("ET", "");
    assert [Word("ET")] + [] == [Word("ET")];
  }

  lemma AreWords()
    ensures IsWord("8") && IsWord("9") && IsWord("28") && IsWord("48") && IsWord("790") && IsWord("ET")
    ensures IsWhite('\n')
  {
  }

  lemma FooterIsRead(footer: string)
    requires !HasReturn(footer)
    ensures Tokens(BEFORE_FOOTER + (Show(footer) + AFTER_FOOTER)) == Some(FooterTokens(footer))
  {
    hide *;
    var setting := Setting("8", "48", "28");
    var last := Show(footer) + AFTER_FOOTER;
    AreWords();
    LastTokens();
    FooterIsASetting();
    assert BEFORE_FOOTER + last == ['\n'] + ("ET" + (['\n'] + (Spaced(setting) + last)));
    WhiteIsSkipped('\n', "ET" + (['\n'] + (Spaced(setting) + last)));
    NewLineIsNotRegular(Spaced(setting) + last);
    WordIsRead("ET", ['\n'] + (Spaced(setting) + last));
    WhiteIsSkipped('\n', Spaced(setting) + last);
    SettingIsRead("8", "48", "28", last);
    ShowTokens(footer, AFTER_FOOTER);
    BeforeSome([Str(footer), Word("Tj")], [Word("ET")]);
    BeforeSome(TokensOf(setting), [Str(footer), Word("Tj")] + [Word("ET")]);
    PrependSome(Word("ET"), TokensOf(setting) + ([Str(footer), Word("Tj")] + [Word("ET")]));
    IsFooterTokens(footer);
  }

  lemma NewLineIsNotRegular(rest: string)
    ensures !IsRegular((['\n'] + rest)[0])
  {
  }

  lemma BeforeSome(tokens: seq<Token>, others: seq<Token>)
    ensures Before(tokens, Some(others)) == Some(tokens + others)
  {
  }

  lemma PrependSome(token: Token, others: seq<Token>)
    ensures Prepend(token, Some(others)) == Some([token] + others)
  {
  }

  lemma IsFooterTokens(footer: string)
    ensures FooterTokens(footer) ==
            [Word("ET")] + (TokensOf(Setting("8", "48", "28")) + ([Str(footer), Word("Tj")] + [Word("ET")]))
  {
    assert [Str(footer), Word("Tj")] + [Word("ET")] == [Str(footer), Word("Tj"), Word("ET")];
  }

  function PageTokens(texts: seq<string>, footer: string): seq<Token> {
    TokensOf(Setting("9", "48", "790")) + (LineTokens(texts) + FooterTokens(footer))
  }

  lemma PageParts(texts: seq<string>, pageNumber: nat, pageCount: nat)
    ensures var footer := Footer(pageNumber, pageCount);
            && !HasReturn(footer)
            && ContentStream(texts, pageNumber, pageCount) ==
               BEFORE_LINES + (ShowLines(texts) + (BEFORE_FOOTER + (Show(footer) + AFTER_FOOTER)))
  {
    FooterNeedsNoEscape(pageNumber, pageCount);
    hide ShowLines;
  }

  lemma FooterStartsWhite(rest: string)
    ensures BEFORE_FOOTER + rest != [] && IsWhite((BEFORE_FOOTER + rest)[0])
  {
  }

  lemma PageIsRead(texts: seq<string>, pageNumber: nat, pageCount: nat)
    requires NoReturns(texts)
    ensures Tokens(ContentStream(texts, pageNumber, pageCount)) ==
            Some(PageTokens(texts, Footer(pageNumber, pageCount)))
  {
    hide *;
    var footer := Footer(pageNumber, pageCount);
    var last := BEFORE_FOOTER + (Show(footer) + AFTER_FOOTER);
    PageParts(texts, pageNumber, pageCount);
    AreWords();
    FooterStartsWhite(Show(footer) + AFTER_FOOTER);
    OpeningIsASetting();
    SettingIsRead("9", "48", "790", ShowLines(texts) + last);
    LinesAreRead(texts, last);
    FooterIsRead(footer);
    BeforeSome(LineTokens(texts), FooterTokens(footer));
    BeforeSome(TokensOf(Setting("9", "48", "790")), LineTokens(texts) + FooterTokens(footer));
    IsPageTokens(texts, footer);
  }

  lemma IsPageTokens(texts: seq<string>, footer: string)
    ensures PageTokens(texts, footer) ==
            TokensOf(Setting("9", "48", "790")) + (LineTokens(texts) + FooterTokens(footer))
  {
  }

  predicate Plain(s: string) {
    forall i :: 0 <= i < |s| ==> s[i] != '(' && s[i] != ')' && s[i] != '\\'
  }

  lemma FooterNeedsNoEscape(pageNumber: nat, pageCount: nat)
    ensures PdfEscape(Footer(pageNumber, pageCount)) == Footer(pageNumber, pageCount)
  {
    var footer := Footer(pageNumber, pageCount);
    assert Plain("Veza Learning Cloud | Page ") && Plain(" of ");
    assert Plain(Numeral(pageNumber)) && Plain(Numeral(pageCount));
    assert Plain(footer);
    Untouched(footer, '\\', "\\\\");
    Untouched(footer, '(', "\\(");
    Untouched(footer, ')', "\\)");
  }

  // ------------------------------------------------------------------ drawing the page

  lemma NumbersAreNumbers()
    ensures Number("9") == Some(9) && Number("8") == Some(8) && Number("48") == Some(48) && Number("28") == Some(28)
    ensures Number("790") == Some(790) && Number("0") == Some(0) && Number("-14") == Some(-14)
  {
    assert "48"[..1] == "4" && "28"[..1] == "2" && "79"[..1] == "7" && "790"[..2] == "79" && "14"[..1] == "1";
    assert Value("4") == Some(4) && Value("2") == Some(2) && Value("7") == Some(7) && Value("1") == Some(1);
    assert Value("79") == Some(79);
    assert "-14"[1..] == "14";
  }

  lemma SettingDraws(size: string, x: string, y: string, rest: seq<Token>, pen: Pen)
    requires Number(size).Some? && Number(x).Some? && Number(y).Some? && !pen.inText
    ensures Draw(TokensOf(Setting(size, x, y)) + rest, [], pen) ==
            Draw(rest, [], Pen(true, Number(x).value, Number(y).value, true, Some("/F1"), Number(size).value))
  {
    hide *;
    var move := [Word(x), Word(y), Word("Td")] + rest;
    var font := [Word("/F1"), Word(size), Word("Tf")] + move;
    SettingTokens(size, x, y, rest);
    var inText := pen.(inText := true, x := 0, y := 0, atStart := true);
    BeginDraws(font, pen);
    FontDraws("/F1", size, move, inText);
    MoveDraws(x, y, rest, inText.(font := Some("/F1"), size := Number(size).value));
  }

  lemma SettingTokens(size: string, x: string, y: string, rest: seq<Token>)
    ensures TokensOf(Setting(size, x, y)) + rest ==
            [Word("BT")] + ([Word("/F1"), Word(size), Word("Tf")] + ([Word(x), Word(y), Word("Td")] + rest))
  {
    assert TokensOf(Setting(size, x, y)) ==
           [Word("BT"), Word("/F1"), Word(size), Word("Tf"), Word(x), Word(y), Word("Td")];
  }

  // Line under line, 14 units apart.
  function Lines(texts: seq<string>, x: int, y: int, size: int): (placed: seq<Placed>)
    ensures |placed| == |texts|
  {
    seq(|texts|, k requires 0 <= k < |texts| => Placed(texts[k], x, y - 14 * k, "/F1", size))
  }

  lemma LineTokensFromFront(texts: seq<string>, rest: seq<Token>)
    requires texts != []
    ensures LineTokens(texts) + rest ==
            if |texts| == 1 then [Str(texts[0]), Word("Tj")] + rest
            else [Str(texts[0]), Word("Tj")] +
                 ([Word("0"), Word("-14"), Word("Td")] + (LineTokens(texts[1..]) + rest))
  {
    LineTokensUnfold(texts);
    hide *;
    RegroupTokens(Str(texts[0]), LineTokens(texts[1..]), rest);
  }

  lemma LineTokensUnfold(texts: seq<string>)
    requires texts != []
    ensures LineTokens(texts) ==
            if |texts| == 1 then [Str(texts[0]), Word("Tj")]
            else [Str(texts[0]), Word("Tj"), Word("0"), Word("-14"), Word("Td")] + LineTokens(texts[1..])
  {
  }

  lemma RegroupTokens(first: Token, more: seq<Token>, rest: seq<Token>)
    ensures ([first, Word("Tj"), Word("0"), Word("-14"), Word("Td")] + more) + rest ==
            [first, Word("Tj")] + ([Word("0"), Word("-14"), Word("Td")] + (more + rest))
  {
    var tj, zero, down, td := Word("Tj"), Word("0"), Word("-14"), Word("Td");
    assert ([first, tj, zero, down, td] + more) + rest == [first, tj] + ([zero, down, td] + (more + rest));
  }

  lemma LinesFromFront(texts: seq<string>, x: int, y: int, size: int)
    requires texts != []
    ensures Lines(texts, x, y, size) ==
            [Placed(texts[0], x, y, "/F1", size)] + Lines(texts[1..], x, y - 14, size)
  {
  }

  lemma NoLines(x: int, y: int, size: int, rest: seq<Token>)
    ensures Lines([], x, y, size) == [] && LineTokens([]) + rest == rest
  {
  }

  // A line and the step to the next.
  lemma LineDraws(text: string, after: seq<Token>, pen: Pen)
    requires pen.inText && pen.atStart && pen.font == Some("/F1")
    ensures Draw([Str(text), Word("Tj")] + ([Word("0"), Word("-14"), Word("Td")] + after), [], pen) ==
            Shows([Placed(text, pen.x, pen.y, "/F1", pen.size)], Draw(after, [], pen.(y := pen.y - 14)))
  {
    hide *;
    NumbersAreNumbers();
    TextDraws(text, [Word("0"), Word("-14"), Word("Td")] + after, pen);
    MoveDraws("0", "-14", after, pen.(atStart := false));
  }

  // Where the pen is behind the lines.
  function Below(pen: Pen, lines: nat): Pen {
    if lines == 0 then pen else pen.(y := pen.y - 14 * (lines - 1), atStart := false)
  }

  lemma BelowNext(pen: Pen, lines: nat)
    requires lines >= 2
    ensures Below(pen.(y := pen.y - 14), lines - 1) == Below(pen, lines)
  {
  }

  lemma BelowOne(pen: Pen)
    ensures Below(pen, 0) == pen && Below(pen, 1) == pen.(atStart := false)
  {
  }

  lemma {:induction false} LinesDraw(texts: seq<string>, rest: seq<Token>, pen: Pen)
    requires pen.inText && pen.atStart && pen.font == Some("/F1")
    ensures Draw(LineTokens(texts) + rest, [], pen) ==
            Shows(Lines(texts, pen.x, pen.y, pen.size), Draw(rest, [], Below(pen, |texts|)))
  {
    hide *;
    BelowOne(pen);
    if texts == [] {
      NoLines(pen.x, pen.y, pen.size, rest);
      NothingShown(Draw(rest, [], pen));
    } else {
      LineTokensFromFront(texts, rest);
      LinesFromFront(texts, pen.x, pen.y, pen.size);
      var first := [Placed(texts[0], pen.x, pen.y, "/F1", pen.size)];
      if |texts| == 1 {
        TextDraws(texts[0], rest, pen);
        NoLines(pen.x, pen.y - 14, pen.size, rest);
        assert texts[1..] == [] && first + [] == first;
      } else {
        LineDraws(texts[0], LineTokens(texts[1..]) + rest, pen);
        LinesDraw(texts[1..], rest, pen.(y := pen.y - 14));
        BelowNext(pen, |texts|);
        ShownBoth(first, Lines(texts[1..], pen.x, pen.y - 14, pen.size), Draw(rest, [], Below(pen, |texts|)));
      }
    }
  }

  lemma BelowIsInText(pen: Pen, lines: nat)
    ensures Below(pen, lines).inText == pen.inText
  {
  }

  lemma FooterDraws(footer: string, pen: Pen)
    requires pen.inText
    ensures Draw(FooterTokens(footer), [], pen) == Some([Placed(footer, 48, 28, "/F1", 8)])
  {
    hide *;
    var setting, last := TokensOf(Setting("8", "48", "28")), [Word("ET")];
    assert last + [] == last;
    var text := [Str(footer), Word("Tj")] + last;
    var ready := Pen(true, 48, 28, true, Some("/F1"), 8);
    NumbersAreNumbers();
    IsFooterTokens(footer);
    EndDraws(setting + text, pen);
    SettingDraws("8", "48", "28", text, pen.(inText := false));
    TextDraws(footer, last, ready);
    EndDraws([], ready.(atStart := false));
    NothingLeft(ready.(atStart := false, inText := false));
    ShowsNoMore([Placed(footer, 48, 28, "/F1", 8)]);
  }

  lemma ShowsNoMore(shown: seq<Placed>)
    ensures Shows(shown, Some([])) == Some(shown)
  {
    assert shown + [] == shown;
  }

  /** What a reader of the text operators sees of a page: its lines from (48, 790) downwards, 14
      units apart, in size 9, and its footer at (48, 28) in size 8, and nothing else. */
  lemma PageShowsItsLines(texts: seq<string>, pageNumber: nat, pageCount: nat)
    requires NoReturns(texts)
    ensures ReadText(ContentStream(texts, pageNumber, pageCount)) ==
            Some(seq(|texts|, k requires 0 <= k < |texts| => Placed(texts[k], 48, 790 - 14 * k, "/F1", 9)) +
                 [Placed("Veza Learning Cloud | Page " + Numeral(pageNumber) + " of " + Numeral(pageCount), 48, 28,
                         "/F1", 8)])
  {
    assert Footer(pageNumber, pageCount) ==
           "Veza Learning Cloud | Page " + Numeral(pageNumber) + " of " + Numeral(pageCount);
    DrawsPage(texts, pageNumber, pageCount);
  }

  lemma DrawsPage(texts: seq<string>, pageNumber: nat, pageCount: nat)
    requires NoReturns(texts)
    ensures ReadText(ContentStream(texts, pageNumber, pageCount)) ==
            Some(seq(|texts|, k requires 0 <= k < |texts| => Placed(texts[k], 48, 790 - 14 * k, "/F1", 9)) +
                 [Placed(Footer(pageNumber, pageCount), 48, 28, "/F1", 8)])
  {
    hide *;
    var footer := Footer(pageNumber, pageCount);
    var start := Pen(true, 48, 790, true, Some("/F1"), 9);
    NumbersAreNumbers();
    ReadsTokens(ContentStream(texts, pageNumber, pageCount));
    PageIsRead(texts, pageNumber, pageCount);
    IsPageTokens(texts, footer);
    SettingDraws("9", "48", "790", LineTokens(texts) + FooterTokens(footer), START);
    LinesDraw(texts, FooterTokens(footer), start);
    BelowIsInText(start, |texts|);
    FooterDraws(footer, Below(start, |texts|));
    ShowsSome(Lines(texts, 48, 790, 9), [Placed(footer, 48, 28, "/F1", 8)]);
    LinesAre(texts);
  }

  lemma ShowsSome(a: seq<Placed>, b: seq<Placed>)
    ensures Shows(a, Some(b)) == Some(a + b)
  {
  }

  lemma ReadsTokens(stream: string)
    ensures Tokens(stream).Some? ==> ReadText(stream) == Draw(Tokens(stream).value, [], START)
    ensures !START.inText
  {
    hide Tokens, Draw;
  }

  lemma LinesAre(texts: seq<string>)
    ensures Lines(texts, 48, 790, 9) ==
            seq(|texts|, k requires 0 <= k < |texts| => Placed(texts[k], 48, 790 - 14 * k, "/F1", 9))
  {
  }

  /** Up to 52 lines are at different heights, all above the footer and on a sheet of 595 by 842. */
  lemma LinesAreApart(texts: seq<string>, pageNumber: nat, pageCount: nat)
    requires NoReturns(texts) && |texts| <= 52
    ensures var read := ReadText(ContentStream(texts, pageNumber, pageCount));
            && read.Some? && |read.value| == |texts| + 1
            && (forall i, j :: 0 <= i < j < |read.value| ==> read.value[j].y < read.value[i].y)
            && (forall i :: 0 <= i < |read.value| ==> 0 < read.value[i].x < 595 && 0 < read.value[i].y < 842)
  {
    PageShowsItsLines(texts, pageNumber, pageCount);
    hide ReadText, ContentStream, Footer;
  }
}
