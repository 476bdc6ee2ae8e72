/**
  A reader of the text operators of a content stream, after sections 7.2, 9.4.1 and 9.4.2 of
  ISO 32000-1: what is shown, where it starts, and in which font.
*/
module TextOperators {
  import opened Wrappers
  import opened Decimal
  import opened Escape

  // ------------------------------------------------------------------ tokens

  datatype Token = Str(text: string) | Word(word: string)

  predicate IsWhite(c: char) {
    c == '\0' || c == '\t' || c == '\n' || c as int == 12 || c == '\r' || c == ' '
  }

  predicate IsRegular(c: char) {
    !IsWhite(c) && c !in {'(', ')', '<', '>', '[', ']', '{', '}', '/', '%'}
  }

  function RegularLength(s: string): (n: nat)
    ensures n <= |s|
  {
    if s == [] || !IsRegular(s[0]) then 0 else 1 + RegularLength(s[1..])
  }

  // A name keeps its slash.
  function WordLength(s: string): (n: nat)
    requires s != []
    ensures n <= |s|
  {
    if s[0] == '/' then 1 + RegularLength(s[1..]) else RegularLength(s)
  }

  // Literal strings, names, numbers and operators; other syntax is not read.
  function Tokens(s: string): Option<seq<Token>>
    decreases |s|
  {
    if s == [] then Some([])
    else if IsWhite(s[0]) then Tokens(s[1..])
    else if s[0] == '(' then
      var (text, rest) :- ReadLiteral(s[1..], 0);
      RemainderIsShorter(s[1..], 0);
      Prepend(Str(text), Tokens(rest))
    else if WordLength(s) == 0 then None
    else Prepend(Word(s[..WordLength(s)]), Tokens(s[WordLength(s)..]))
  }

  function Prepend(token: Token, tokens: Option<seq<Token>>): Option<seq<Token>> {
    if tokens.None? then None else Some([token] + tokens.value)
  }

  lemma {:induction false} RemainderIsShorter(s: string, depth: nat)
    ensures ReadLiteral(s, depth).Some? ==> |ReadLiteral(s, depth).value.1| < |s|
    decreases |s|
  {
    if s == [] || (s[0] == ')' && depth == 0) {
    } else if s[0] == '\\' {
      if |s| > 1 {
        var n := Unescaped(s[1..]).1;
        RemainderIsShorter(s[1 + n..], depth);
      }
    } else if s[0] == '\r' {
      RemainderIsShorter(if |s| >= 2 && s[1] == '\n' then s[2..] else s[1..], depth);
    } else {
      RemainderIsShorter(s[1..], if s[0] == '(' then depth + 1 else if s[0] == ')' then depth - 1 else depth);
    }
  }

  // ------------------------------------------------------------------ operators

  // The text object's state: where the current line starts, whether the next string starts there
  // too, and the font, which outlives text objects.
  datatype Pen = Pen(inText: bool, x: int, y: int, atStart: bool, font: Option<string>, size: int)

  const START: Pen := Pen(false, 0, 0, false, None, 0)

  datatype Placed = Placed(text: string, x: int, y: int, font: string, size: int)

  function Number(word: string): Option<int> {
    var negative := word != [] && word[0] == '-';
    var n := Value(if negative then word[1..] else word);
    var value: int := if n.Some? then n.value else 0;
    if n.None? then None else Some(if negative then -value else value)
  }

  predicate IsOperand(token: Token) {
    token.Str? || Number(token.word).Some? || (token.word != [] && token.word[0] == '/')
  }

  predicate IsNumber(token: Token) {
    token.Word? && Number(token.word).Some?
  }

  // One operator; the operands must be those it takes, and a string must be the first of its line.
  function Operate(pen: Pen, operands: seq<Token>, operator: string): Option<(Pen, seq<Placed>)> {
    if operator == "BT" && operands == [] && !pen.inText then
      Some((pen.(inText := true, x := 0, y := 0, atStart := true), []))
    else if operator == "ET" && operands == [] && pen.inText then
      Some((pen.(inText := false), []))
    else if operator == "Tf" && |operands| == 2 && operands[0].Word? && IsNumber(operands[1]) then
      Some((pen.(font := Some(operands[0].word), size := Number(operands[1].word).value), []))
    else if operator == "Td" && pen.inText && |operands| == 2 && IsNumber(operands[0]) && IsNumber(operands[1]) then
      Some((pen.(x := pen.x + Number(operands[0].word).value, y := pen.y + Number(operands[1].word).value,
                 atStart := true), []))
    else if operator == "Tj" && pen.inText && pen.atStart && pen.font.Some? && |operands| == 1 && operands[0].Str? then
      Some((pen.(atStart := false), [Placed(operands[0].text, pen.x, pen.y, pen.font.value, pen.size)]))
    else None
  }

  function Draw(tokens: seq<Token>, operands: seq<Token>, pen: Pen): Option<seq<Placed>> {
    if tokens == [] then if operands == [] && !pen.inText then Some([]) else None
    else if IsOperand(tokens[0]) then Draw(tokens[1..], operands + [tokens[0]], pen)
    else
      var (after, shown) :- Operate(pen, operands, tokens[0].word);
      var others :- Draw(tokens[1..], [], after);
      Some(shown + others)
  }

  // Everything that a stream shows, in order; None when a part of it cannot be read.
  function ReadText(stream: string): Option<seq<Placed>> {
    var tokens :- Tokens(stream);
    Draw(tokens, [], START)
  }

  // ------------------------------------------------------------------ reading token by token

  lemma {:induction false} RegularEnds(w: string, rest: string)
    requires forall i :: 0 <= i < |w| ==> IsRegular(w[i])
    requires rest == [] || !IsRegular(rest[0])
    ensures RegularLength(w + rest) == |w|
  {
    if w == [] {
      assert w + rest == rest;
    } else {
      RegularEnds(w[1..], rest);
      assert (w + rest)[1..] == w[1..] + rest;
    }
  }

  predicate IsWord(w: string) {
    w != [] && (IsRegular(w[0]) || w[0] == '/') && forall i :: 1 <= i < |w| ==> IsRegular(w[i])
  }

  lemma WordIsRead(w: string, rest: string)
    requires IsWord(w) && (rest == [] || !IsRegular(rest[0]))
    ensures Tokens(w + rest) == Prepend(Word(w), Tokens(rest))
  {
    var s := w + rest;
    if w[0] == '/' {
      RegularEnds(w[1..], rest);
      assert s[1..] == w[1..] + rest;
    } else {
      RegularEnds(w, rest);
    }
    assert WordLength(s) == |w| && s[..|w|] == w && s[|w|..] == rest;
  }

  lemma WhiteIsSkipped(c: char, rest: string)
    requires IsWhite(c)
    ensures Tokens([c] + rest) == Tokens(rest)
  {
    assert ([c] + rest)[1..] == rest;
  }

  lemma StringIsRead(text: string, rest: string)
    requires !HasReturn(text)
    ensures Tokens("(" + (PdfEscape(text) + (")" + rest))) == Prepend(Str(text), Tokens(rest))
  {
    PdfLiteralRoundTrip(text, rest);
    var s := "(" + (PdfEscape(text) + (")" + rest));
    assert s[1..] == PdfEscape(text) + ")" + rest;
  }

  // Words, each with the white space behind it.
  function Spaced(words: seq<(string, char)>): string {
    if words == [] then [] else words[0].0 + ([words[0].1] + Spaced(words[1..]))
  }

  function TokensOf(words: seq<(string, char)>): seq<Token> {
    seq(|words|, i requires 0 <= i < |words| => Word(words[i].0))
  }

  // Tokens before those of the rest.
  function Before(tokens: seq<Token>, others: Option<seq<Token>>): Option<seq<Token>> {
    if others.None? then None else Some(tokens + others.value)
  }

  lemma NothingBefore(others: Option<seq<Token>>)
    ensures Before([], others) == others
  {
    if others.Some? {
      assert [] + others.value == others.value;
    }
  }

  lemma BeforeBoth(a: seq<Token>, b: seq<Token>, others: Option<seq<Token>>)
    ensures Before(a, Before(b, others)) == Before(a + b, others)
  {
    if others.Some? {
      assert a + (b + others.value) == (a + b) + others.value;
    }
  }

  lemma {:induction false} WordsAreRead(words: seq<(string, char)>, rest: string)
    requires forall i :: 0 <= i < |words| ==> IsWord(words[i].0) && IsWhite(words[i].1)
    ensures Tokens(Spaced(words) + rest) == Before(TokensOf(words), Tokens(rest))
  {
    hide Tokens, IsWord;
    if words == [] {
      assert Spaced(words) + rest == rest;
      NothingBefore(Tokens(rest));
    } else {
      var after := Spaced(words[1..]) + rest;
      assert Spaced(words) + rest == words[0].0 + ([words[0].1] + after);
      WordsAreRead(words[1..], rest);
      WhiteIsSkipped(words[0].1, after);
      WordIsRead(words[0].0, [words[0].1] + after);
      BeforeBoth([Word(words[0].0)], TokensOf(words[1..]), Tokens(rest));
      assert [Word(words[0].0)] + TokensOf(words[1..]) == TokensOf(words);
    }
  }

  // ------------------------------------------------------------------ drawing token by token

  lemma OperandWaits(token: Token, rest: seq<Token>, operands: seq<Token>, pen: Pen)
    requires IsOperand(token)
    ensures Draw([token] + rest, operands, pen) == Draw(rest, operands + [token], pen)
  {
    assert ([token] + rest)[1..] == rest;
  }

  function Shows(shown: seq<Placed>, others: Option<seq<Placed>>): Option<seq<Placed>> {
    if others.None? then None else Some(shown + others.value)
  }

  lemma OperatorActs(operator: string, rest: seq<Token>, operands: seq<Token>, pen: Pen)
    requires !IsOperand(Word(operator)) && Operate(pen, operands, operator).Some?
    ensures var (after, shown) := Operate(pen, operands, operator).value;
            Draw([Word(operator)] + rest, operands, pen) == Shows(shown, Draw(rest, [], after))
  {
    hide Operate, IsOperand;
    assert ([Word(operator)] + rest)[1..] == rest;
  }

  lemma NothingShown(others: Option<seq<Placed>>)
    ensures Shows([], others) == others
  {
    if others.Some? {
      assert [] + others.value == others.value;
    }
  }

  lemma ShownBoth(a: seq<Placed>, b: seq<Placed>, others: Option<seq<Placed>>)
    ensures Shows(a, Shows(b, others)) == Shows(a + b, others)
  {
    if others.Some? {
      assert a + (b + others.value) == (a + b) + others.value;
    }
  }

  lemma BeginActs(pen: Pen)
    requires !pen.inText
    ensures !IsOperand(Word("BT"))
    ensures Operate(pen, [], "BT") == Some((pen.(inText := true, x := 0, y := 0, atStart := true), []))
  {
  }

  lemma EndActs(pen: Pen)
    requires pen.inText
    ensures !IsOperand(Word("ET")) && Operate(pen, [], "ET") == Some((pen.(inText := false), []))
  {
  }

  lemma FontActs(name: string, size: string, pen: Pen)
    requires name != [] && name[0] == '/' && Number(size).Some?
    ensures !IsOperand(Word("Tf")) && IsOperand(Word(name)) && IsOperand(Word(size))
    ensures Operate(pen, [Word(name), Word(size)], "Tf") ==
            Some((pen.(font := Some(name), size := Number(size).value), []))
  {
    assert !IsOperand(Word("Tf"));
    hide Number;
  }

  lemma MoveActs(x: string, y: string, pen: Pen)
    requires Number(x).Some? && Number(y).Some? && pen.inText
    ensures !IsOperand(Word("Td")) && IsOperand(Word(x)) && IsOperand(Word(y))
    ensures Operate(pen, [Word(x), Word(y)], "Td") ==
            Some((pen.(x := pen.x + Number(x).value, y := pen.y + Number(y).value, atStart := true), []))
  {
    assert !IsOperand(Word("Td"));
    hide Number;
  }

  lemma ShowActs(text: string, pen: Pen)
    requires pen.inText && pen.atStart && pen.font.Some?
    ensures !IsOperand(Word("Tj")) && IsOperand(Str(text))
    ensures Operate(pen, [Str(text)], "Tj") ==
            Some((pen.(atStart := false), [Placed(text, pen.x, pen.y, pen.font.value, pen.size)]))
  {
  }

  lemma BeginDraws(rest: seq<Token>, pen: Pen)
    requires !pen.inText
    ensures Draw([Word("BT")] + rest, [], pen) ==
            Draw(rest, [], pen.(inText := true, x := 0, y := 0, atStart := true))
  {
    hide *;
    BeginActs(pen);
    OperatorActs("BT", rest, [], pen);
    NothingShown(Draw(rest, [], pen.(inText := true, x := 0, y := 0, atStart := true)));
  }

  lemma EndDraws(rest: seq<Token>, pen: Pen)
    requires pen.inText
    ensures Draw([Word("ET")] + rest, [], pen) == Draw(rest, [], pen.(inText := false))
  {
    hide *;
    EndActs(pen);
    OperatorActs("ET", rest, [], pen);
    NothingShown(Draw(rest, [], pen.(inText := false)));
  }

  lemma TwoOperandsDraw(a: Token, b: Token, operator: string, rest: seq<Token>, pen: Pen, after: Pen)
    requires IsOperand(a) && IsOperand(b) && !IsOperand(Word(operator))
    requires Operate(pen, [a, b], operator) == Some((after, []))
    ensures Draw([a, b, Word(operator)] + rest, [], pen) == Draw(rest, [], after)
  {
    hide *;
    assert [a, b, Word(operator)] + rest == [a] + ([b] + ([Word(operator)] + rest));
    OperandWaits(a, [b] + ([Word(operator)] + rest), [], pen);
    OperandWaits(b, [Word(operator)] + rest, [] + [a], pen);
    assert [] + [a] + [b] == [a, b];
    OperatorActs(operator, rest, [a, b], pen);
    NothingShown(Draw(rest, [], after));
  }

  lemma FontDraws(name: string, size: string, rest: seq<Token>, pen: Pen)
    requires name != [] && name[0] == '/' && Number(size).Some?
    ensures Draw([Word(name), Word(size), Word("Tf")] + rest, [], pen) ==
            Draw(rest, [], pen.(font := Some(name), size := Number(size).value))
  {
    hide *;
    FontActs(name, size, pen);
    TwoOperandsDraw(Word(name), Word(size), "Tf", rest, pen, pen.(font := Some(name), size := Number(size).value));
  }

  lemma MoveDraws(x: string, y: string, rest: seq<Token>, pen: Pen)
    requires Number(x).Some? && Number(y).Some? && pen.inText
    ensures Draw([Word(x), Word(y), Word("Td")] + rest, [], pen) ==
            Draw(rest, [], pen.(x := pen.x + Number(x).value, y := pen.y + Number(y).value, atStart := true))
  {
    hide *;
    MoveActs(x, y, pen);
    TwoOperandsDraw(Word(x), Word(y), "Td", rest, pen,
        pen.(x := pen.x + Number(x).value, y := pen.y + Number(y).value, atStart := true));
  }

  lemma TextDraws(text: string, rest: seq<Token>, pen: Pen)
    requires pen.inText && pen.atStart && pen.font.Some?
    ensures Draw([Str(text), Word("Tj")] + rest, [], pen) ==
            Shows([Placed(text, pen.x, pen.y, pen.font.value, pen.size)], Draw(rest, [], pen.(atStart := false)))
  {
    hide *;
    ShowActs(text, pen);
    assert [Str(text), Word("Tj")] + rest == [Str(text)] + ([Word("Tj")] + rest);
    OperandWaits(Str(text), [Word("Tj")] + rest, [], pen);
    assert [] + [Str(text)] == [Str(text)];
    OperatorActs("Tj", rest, [Str(text)], pen);
  }

  lemma NothingLeft(pen: Pen)
    requires !pen.inText
    ensures Draw([], [], pen) == Some([])
  {
  }
}
