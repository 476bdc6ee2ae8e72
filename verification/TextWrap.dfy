/**
  The greedy line wrapper of the PDF export.  A string is a sequence of UTF-16 code units, one
  char each.
*/
module TextWrap {

  // The white space of a regular expression's \s.
  predicate IsSpace(c: char) {
    var u := c as int;
    || 0x9 <= u <= 0xD || u == 0x20 || u == 0xA0 || u == 0x1680
    || 0x2000 <= u <= 0x200A || u == 0x2028 || u == 0x2029 || u == 0x202F || u == 0x205F
    || u == 0x3000 || u == 0xFEFF
  }

  function Without(s: string, c: char): string {
    if s == [] then [] else (if s[0] == c then [] else [s[0]]) + Without(s[1..], c)
  }

  // split("\n"): always at least one piece.
  function Paragraphs(s: string): (ps: seq<string>)
    ensures ps != []
  {
    if s == [] then [[]]
    else
      var rest := Paragraphs(s[1..]);
      if s[0] == '\n' then [[]] + rest else [[s[0]] + rest[0]] + rest[1..]
  }

  function WordLength(s: string): (k: nat)
    ensures k <= |s| && (k < |s| ==> IsSpace(s[k])) && forall i :: 0 <= i < k ==> !IsSpace(s[i])
  {
    if s == [] || IsSpace(s[0]) then 0 else WordLength(s[1..]) + 1
  }

  // split(/\s+/).filter(Boolean): the maximal runs without white space.
  function Words(s: string): seq<string>
    decreases |s|
  {
    if s == [] then []
    else if IsSpace(s[0]) then Words(s[1..])
    else
      var k := WordLength(s);
      [s[..k]] + Words(s[k..])
  }

  function Slices(word: string, maximum: nat): seq<string>
    requires maximum >= 1
  {
    if |word| <= maximum then if word == [] then [] else [word]
    else [word[..maximum]] + Slices(word[maximum..], maximum)
  }

  datatype Layout = Layout(output: seq<string>, line: string)

  function Flushed(l: Layout): seq<string> {
    if l.line == [] then l.output else l.output + [l.line]
  }

  function Candidate(line: string, word: string): string {
    if line == [] then word else line + " " + word
  }

  // One word of the inner loop.
  function Place(l: Layout, word: string, maximum: nat): Layout
    requires maximum >= 1
  {
    if |word| > maximum then Layout(Flushed(l) + Slices(word, maximum), [])
    else if |Candidate(l.line, word)| > maximum then Layout(l.output + [l.line], word)
    else Layout(l.output, Candidate(l.line, word))
  }

  function PlaceAll(words: seq<string>, maximum: nat): Layout
    requires maximum >= 1
  {
    if words == [] then Layout([], [])
    else Place(PlaceAll(words[..|words| - 1], maximum), words[|words| - 1], maximum)
  }

  function WrappedParagraph(paragraph: string, maximum: nat): seq<string>
    requires maximum >= 1
  {
    var words := Words(paragraph);
    if words == [] then [[]] else Flushed(PlaceAll(words, maximum))
  }

  function WrapAll(paragraphs: seq<string>, maximum: nat): seq<string>
    requires maximum >= 1
  {
    if paragraphs == [] then []
    else WrapAll(paragraphs[..|paragraphs| - 1], maximum) + WrappedParagraph(paragraphs[|paragraphs| - 1], maximum)
  }

  function Wrapped(value: string, maximum: nat): seq<string>
    requires maximum >= 1
  {
    WrapAll(Paragraphs(Without(value, '\r')), maximum)
  }

  lemma {:induction false} SlicesFrom(word: string, maximum: nat, offset: nat)
    requires maximum >= 1 && offset < |word|
    ensures var end := if offset + maximum <= |word| then offset + maximum else |word|;
            Slices(word[offset..], maximum) == [word[offset..end]] + Slices(word[end..], maximum)
  {
    var end := if offset + maximum <= |word| then offset + maximum else |word|;
    if offset + maximum < |word| {
      assert word[offset..][..maximum] == word[offset..end];
      assert word[offset..][maximum..] == word[end..];
    } else {
      assert word[offset..end] == word[offset..] && word[end..] == [];
    }
  }

  method Wrap(value: string, maximum: nat) returns (output: seq<string>)
    requires maximum >= 1
    ensures output == Wrapped(value, maximum)
  {
    output := [];
    var paragraphs := Paragraphs(Without(value, '\r'));
    hide WrappedParagraph;
    for p := 0 to |paragraphs|
      invariant output == WrapAll(paragraphs[..p], maximum)
    {
      assert paragraphs[..p + 1][..p] == paragraphs[..p];
      var lines := WrapParagraph(paragraphs[p], maximum);
      output := output + lines;
    }
    assert paragraphs[..|paragraphs|] == paragraphs;
  }

  method PushSlices(lines: seq<string>, word: string, maximum: nat) returns (output: seq<string>)
    requires maximum >= 1
    ensures output == lines + Slices(word, maximum)
  {
    output := lines;
    var offset := 0;
    while offset < |word|
      invariant output + Slices(word[if offset <= |word| then offset else |word|..], maximum) == lines +
                Slices(word, maximum)
      decreases |word| - offset
    {
      SlicesFrom(word, maximum, offset);
      var end := if offset + maximum <= |word| then offset + maximum else |word|;
      output := output + [word[offset..end]];
      offset := offset + maximum;
    }
    assert word[|word|..] == [];
  }

  // The body of the inner loop.
  method PlaceWord(lines: seq<string>, current: string, word: string, maximum: nat) returns (output: seq<string>,
                   line: string)
    requires maximum >= 1
    ensures Layout(output, line) == Place(Layout(lines, current), word, maximum)
  {
    output, line := lines, current;
    if |word| > maximum {
      if line != [] {
        output := output + [line];
      }
      output := PushSlices(output, word, maximum);
      line := [];
    } else {
      var candidate := if line != [] then line + " " + word else word;
      if |candidate| > maximum {
        output := output + [line];
        line := word;
      } else {
        line := candidate;
      }
    }
  }

  lemma PlaceNext(words: seq<string>, word: string, maximum: nat)
    requires maximum >= 1
    ensures PlaceAll(words + [word], maximum) == Place(PlaceAll(words, maximum), word, maximum)
  {
    assert (words + [word])[..|words|] == words;
  }

  method WrapParagraph(paragraph: string, maximum: nat) returns (output: seq<string>)
    requires maximum >= 1
    ensures output == WrappedParagraph(paragraph, maximum)
  {
    hide Words, Place;
    output := [];
    var words := Words(paragraph);
    if |words| == 0 {
      return [[]];
    }
    var line := [];
    for w := 0 to |words|
      invariant Layout(output, line) == PlaceAll(words[..w], maximum)
    {
      assert words[..w + 1] == words[..w] + [words[w]];
      PlaceNext(words[..w], words[w], maximum);
      output, line := PlaceWord(output, line, words[w], maximum);
    }
    assert words[..|words|] == words;
    if line != [] {
      output := output + [line];
    }
  }

  // ------------------------------------------------------------------ nothing is lost

  // The characters that are not white space, in order.
  function Ink(s: string): string {
    if s == [] then [] else InkAt(s[0]) + Ink(s[1..])
  }

  function Flat(lines: seq<string>): string {
    if lines == [] then [] else Flat(lines[..|lines| - 1]) + lines[|lines| - 1]
  }

  function InkAt(c: char): string {
    if IsSpace(c) then [] else [c]
  }

  lemma Associate(a: string, b: string, c: string)
    ensures a + (b + c) == (a + b) + c
  {
  }

  lemma InkCons(s: string)
    requires s != []
    ensures Ink(s) == InkAt(s[0]) + Ink(s[1..])
  {
  }

  lemma {:induction false} InkAppend(a: string, b: string)
    ensures Ink(a + b) == Ink(a) + Ink(b)
  {
    if a == [] {
      assert a + b == b;
    } else {
      calc {
        Ink(a + b);
        { InkCons(a + b); }
        InkAt(a[0]) + Ink((a + b)[1..]);
        { assert (a + b)[1..] == a[1..] + b; InkAppend(a[1..], b); }
        InkAt(a[0]) + (Ink(a[1..]) + Ink(b));
        { Associate(InkAt(a[0]), Ink(a[1..]), Ink(b)); }
        (InkAt(a[0]) + Ink(a[1..])) + Ink(b);
        { InkCons(a); }
        Ink(a) + Ink(b);
      }
    }
  }

  lemma {:induction false} FlatAppend(a: seq<string>, b: seq<string>)
    ensures Flat(a + b) == Flat(a) + Flat(b)
  {
    if b == [] {
      assert a + b == a;
    } else {
      FlatAppend(a, b[..|b| - 1]);
      assert (a + b)[..|a + b| - 1] == a + b[..|b| - 1];
    }
  }

  lemma FlatOne(line: string)
    ensures Flat([line]) == line
  {
    assert [line][..0] == [];
  }

  lemma {:induction false} FlatSlices(word: string, maximum: nat)
    requires maximum >= 1
    ensures Flat(Slices(word, maximum)) == word
  {
    if |word| <= maximum {
      FlatOne(word);
    } else {
      FlatSlices(word[maximum..], maximum);
      FlatAppend([word[..maximum]], Slices(word[maximum..], maximum));
      FlatOne(word[..maximum]);
    }
  }

  lemma FlatFlushed(l: Layout)
    ensures Flat(Flushed(l)) == Flat(l.output) + l.line
  {
    FlatAppend(l.output, [l.line]);
    FlatOne(l.line);
  }

  lemma PlaceKeepsInk(l: Layout, word: string, maximum: nat)
    requires maximum >= 1
    ensures var l' := Place(l, word, maximum);
            Ink(Flat(l'.output) + l'.line) == Ink(Flat(l.output) + l.line) + Ink(word)
  {
    hide Flat, Slices, Ink;
    if |word| > maximum {
      LongKeepsInk(l, word, maximum);
    } else if |Candidate(l.line, word)| > maximum {
      FlatAppend(l.output, [l.line]);
      FlatOne(l.line);
      InkAppend(Flat(l.output) + l.line, word);
    } else {
      JoinKeepsInk(Flat(l.output), l.line, word);
    }
  }

  lemma LongKeepsInk(l: Layout, word: string, maximum: nat)
    requires maximum >= 1
    ensures Ink(Flat(Flushed(l) + Slices(word, maximum)) + []) == Ink(Flat(l.output) + l.line) + Ink(word)
  {
    hide *;
    FlatFlushed(l);
    FlatSlices(word, maximum);
    FlatAppend(Flushed(l), Slices(word, maximum));
    InkAppend(Flat(l.output) + l.line, word);
    assert Flat(Flushed(l) + Slices(word, maximum)) + [] == (Flat(l.output) + l.line) + word;
  }

  lemma BlankHasNoInk()
    ensures Ink(" ") == []
  {
    assert IsSpace(' ') && " "[1..] == [];
  }

  lemma JoinKeepsInk(before: string, line: string, word: string)
    ensures Ink(before + Candidate(line, word)) == Ink(before + line) + Ink(word)
  {
    hide Ink;
    if line == [] {
      InkAppend(before, word);
      assert before + [] == before;
    } else {
      BlankHasNoInk();
      assert before + (line + " " + word) == ((before + line) + " ") + word;
      InkAppend((before + line) + " ", word);
      InkAppend(before + line, " ");
    }
  }

  lemma {:induction false} PlaceAllKeepsInk(words: seq<string>, maximum: nat)
    requires maximum >= 1
    ensures var l := PlaceAll(words, maximum); Ink(Flat(l.output) + l.line) == Ink(Flat(words))
  {
    if words != [] {
      var shorter, word := words[..|words| - 1], words[|words| - 1];
      PlaceAllKeepsInk(shorter, maximum);
      PlaceKeepsInk(PlaceAll(shorter, maximum), word, maximum);
      InkAppend(Flat(shorter), word);
    }
  }

  lemma {:induction false} WordsKeepInk(s: string)
    ensures Ink(Flat(Words(s))) == Ink(s)
    decreases |s|
  {
    hide Ink, Flat, Words, IsSpace, WordLength;
    WordsUnfold(s);
    if s != [] {
      if IsSpace(s[0]) {
        WordsKeepInk(s[1..]);
        InkCons(s);
        NoInkAt(s[0]);
      } else {
        var k := WordLength(s);
        WordsKeepInk(s[k..]);
        assert s == s[..k] + s[k..];
        FlatCons(s[..k], Words(s[k..]));
        InkAppend(s[..k], Flat(Words(s[k..])));
        InkAppend(s[..k], s[k..]);
      }
    }
  }

  lemma WordsUnfold(s: string)
    ensures s == [] ==> Words(s) == [] && Ink(Flat(Words(s))) == Ink(s)
    ensures s != [] && IsSpace(s[0]) ==> Words(s) == Words(s[1..])
    ensures s != [] && !IsSpace(s[0]) ==>
            0 < WordLength(s) && Words(s) == [s[..WordLength(s)]] + Words(s[WordLength(s)..])
  {
    hide IsSpace;
  }

  lemma NoInkAt(c: char)
    requires IsSpace(c)
    ensures InkAt(c) == []
  {
  }

  lemma ParagraphKeepsInk(paragraph: string, maximum: nat)
    requires maximum >= 1
    ensures Ink(Flat(WrappedParagraph(paragraph, maximum))) == Ink(paragraph)
  {
    var words := Words(paragraph);
    WordsKeepInk(paragraph);
    if words == [] {
      FlatOne([]);
    } else {
      PlaceAllKeepsInk(words, maximum);
      FlatFlushed(PlaceAll(words, maximum));
    }
  }

  lemma {:induction false} WrapAllKeepsInk(paragraphs: seq<string>, maximum: nat)
    requires maximum >= 1
    ensures Ink(Flat(WrapAll(paragraphs, maximum))) == Ink(Flat(paragraphs))
  {
    if paragraphs != [] {
      var shorter, last := paragraphs[..|paragraphs| - 1], paragraphs[|paragraphs| - 1];
      WrapAllKeepsInk(shorter, maximum);
      ParagraphKeepsInk(last, maximum);
      FlatAppend(WrapAll(shorter, maximum), WrappedParagraph(last, maximum));
      InkAppend(Flat(WrapAll(shorter, maximum)), Flat(WrappedParagraph(last, maximum)));
      InkAppend(Flat(shorter), last);
    }
  }

  lemma FlatCons(line: string, rest: seq<string>)
    ensures Flat([line] + rest) == line + Flat(rest)
  {
    FlatAppend([line], rest);
    FlatOne(line);
  }

  lemma {:induction false} FlatParagraphs(s: string)
    ensures Flat(Paragraphs(s)) == Without(s, '\n')
  {
    if s == [] {
      FlatOne([]);
    } else {
      FlatParagraphs(s[1..]);
      var rest := Paragraphs(s[1..]);
      if s[0] == '\n' {
        FlatCons([], rest);
      } else {
        assert rest == [rest[0]] + rest[1..];
        FlatCons(rest[0], rest[1..]);
        FlatCons([s[0]] + rest[0], rest[1..]);
      }
    }
  }

  lemma {:induction false} SpaceHasNoInk(s: string, c: char)
    requires IsSpace(c)
    ensures Ink(Without(s, c)) == Ink(s)
  {
    if s != [] {
      SpaceHasNoInk(s[1..], c);
      InkAppend(if s[0] == c then [] else [s[0]], Without(s[1..], c));
    }
  }

  /** Wrapping keeps every character that is not white space, in order. */
  lemma WrapKeepsInk(value: string, maximum: nat)
    requires maximum >= 1
    ensures Ink(Flat(Wrapped(value, maximum))) == Ink(value)
  {
    var text := Without(value, '\r');
    SpaceHasNoInk(value, '\r');
    SpaceHasNoInk(text, '\n');
    FlatParagraphs(text);
    WrapAllKeepsInk(Paragraphs(text), maximum);
  }
}
