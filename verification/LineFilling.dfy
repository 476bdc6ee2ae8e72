/**
  What a greedy line breaker owes its reader, said of the words alone: where words come from,
  which of them share a line, and when a new line begins.
*/
module LineFilling {
  import opened TextWrap
  import opened DocumentLines

  // ------------------------------------------------------------------ words

  predicate Blank(gap: string) {
    forall i :: 0 <= i < |gap| ==> IsSpace(gap[i])
  }

  // A gap before every word and one at the end.
  function Spaced(gaps: seq<string>, words: seq<string>): string
    requires |gaps| == |words| + 1
  {
    if words == [] then gaps[0] else gaps[0] + words[0] + Spaced(gaps[1..], words[1..])
  }

  // White space between any two words.
  predicate Gaps(gaps: seq<string>, words: seq<string>) {
    && |gaps| == |words| + 1
    && (forall i :: 0 <= i < |gaps| ==> Blank(gaps[i]))
    && (forall i :: 0 < i < |words| ==> gaps[i] != [])
  }

  /** The words are the maximal runs of other characters between the white space of a text. */
  lemma {:induction false} WordsAreTheRuns(s: string) returns (gaps: seq<string>)
    ensures Gaps(gaps, Words(s)) && AllProper(Words(s)) && s == Spaced(gaps, Words(s))
    ensures s != [] && !IsSpace(s[0]) ==> gaps[0] == []
    decreases |s|
  {
    WordsAreProper(s);
    if s == [] {
      gaps := [[]];
    } else if IsSpace(s[0]) {
      gaps := WordsAreTheRuns(s[1..]);
      LeadingGap(s[0], gaps, Words(s[1..]));
      assert s == [s[0]] + s[1..];
      gaps := [[s[0]] + gaps[0]] + gaps[1..];
    } else {
      var k := WordLength(s);
      gaps := WordsAreTheRuns(s[k..]);
      assert s == s[..k] + s[k..];
      assert Words(s) == [s[..k]] + Words(s[k..]);
      LeadingWord(s[..k], s[k..], gaps, Words(s[k..]));
      gaps := [[]] + gaps;
    }
  }

  lemma LeadingWord(word: string, rest: string, gaps: seq<string>, words: seq<string>)
    requires Gaps(gaps, words) && AllProper(words) && rest == Spaced(gaps, words)
    requires rest == [] || IsSpace(rest[0])
    ensures Gaps([[]] + gaps, [word] + words) && Spaced([[]] + gaps, [word] + words) == word + rest
  {
    assert ([[]] + gaps)[1..] == gaps && ([word] + words)[1..] == words;
    if words != [] && gaps[0] == [] {
      FirstOf(gaps, words);
      assert false;
    }
  }

  lemma LeadingGap(c: char, gaps: seq<string>, words: seq<string>)
    requires |gaps| == |words| + 1
    ensures Spaced([[c] + gaps[0]] + gaps[1..], words) == [c] + Spaced(gaps, words)
    ensures Gaps(gaps, words) && IsSpace(c) ==> Gaps([[c] + gaps[0]] + gaps[1..], words)
  {
    hide Spaced, IsSpace;
    var more := [[c] + gaps[0]] + gaps[1..];
    assert more[1..] == gaps[1..] && more[0] == [c] + gaps[0];
    SpacedCons(gaps, words);
    SpacedCons(more, words);
    if words != [] {
      Associate([c], gaps[0] + words[0], Spaced(gaps[1..], words[1..]));
      Associate([c], gaps[0], words[0]);
    }
  }

  lemma SpacedCons(gaps: seq<string>, words: seq<string>)
    requires |gaps| == |words| + 1
    ensures Spaced(gaps, words) ==
            if words == [] then gaps[0] else (gaps[0] + words[0]) + Spaced(gaps[1..], words[1..])
  {
  }

  lemma FirstOf(gaps: seq<string>, words: seq<string>)
    requires Gaps(gaps, words) && AllProper(words) && words != [] && gaps[0] == []
    ensures Spaced(gaps, words) != [] && !IsSpace(Spaced(gaps, words)[0])
  {
    assert Proper(words[0]);
  }

  // ------------------------------------------------------------------ lines

  function Concat(groups: seq<seq<string>>): seq<string> {
    if groups == [] then [] else Concat(groups[..|groups| - 1]) + groups[|groups| - 1]
  }

  // A word that no line holds, on its own.
  predicate IsLong(group: seq<string>, maximum: nat) {
    |group| == 1 && |group[0]| > maximum
  }

  // Words that share one line.
  predicate IsLine(group: seq<string>, maximum: nat) {
    group != [] && |JoinWith(" ", group)| <= maximum
  }

  // The lines of a group: the words with single spaces, or the pieces of the long word.
  function LinesOf(group: seq<string>, maximum: nat): seq<string>
    requires maximum >= 1
  {
    if IsLong(group, maximum) then Slices(group[0], maximum) else [JoinWith(" ", group)]
  }

  function AllLines(groups: seq<seq<string>>, maximum: nat): seq<string>
    requires maximum >= 1
  {
    if groups == [] then []
    else AllLines(groups[..|groups| - 1], maximum) + LinesOf(groups[|groups| - 1], maximum)
  }

  // The next group begins only because its first word does not fit on the line before it.
  predicate Full(group: seq<string>, next: seq<string>, maximum: nat) {
    IsLong(group, maximum) || IsLong(next, maximum) ||
    (next != [] && |JoinWith(" ", group)| + 1 + |next[0]| > maximum)
  }

  predicate Filled(groups: seq<seq<string>>, maximum: nat) {
    && (forall g :: 0 <= g < |groups| ==> IsLong(groups[g], maximum) || IsLine(groups[g], maximum))
    && (forall g, h :: 0 <= g && h == g + 1 < |groups| ==> Full(groups[g], groups[h], maximum))
  }

  // The groups behind a layout: its last one is still open unless the current line is empty.
  predicate Behind(groups: seq<seq<string>>, l: Layout, maximum: nat)
    requires maximum >= 1
  {
    && Filled(groups, maximum) && Flushed(l) == AllLines(groups, maximum)
    && (groups == [] ==> l.line == [])
    && (groups != [] ==>
          var last := groups[|groups| - 1];
          if l.line == [] then IsLong(last, maximum)
          else !IsLong(last, maximum) && l.line == JoinWith(" ", last) &&
               l.output == AllLines(groups[..|groups| - 1], maximum))
  }

  lemma AllLinesNext(groups: seq<seq<string>>, group: seq<string>, maximum: nat)
    requires maximum >= 1
    ensures AllLines(groups + [group], maximum) == AllLines(groups, maximum) + LinesOf(group, maximum)
    ensures Concat(groups + [group]) == Concat(groups) + group
  {
    assert (groups + [group])[..|groups|] == groups;
  }

  lemma FilledNext(groups: seq<seq<string>>, group: seq<string>, maximum: nat)
    requires Filled(groups, maximum) && (IsLong(group, maximum) || IsLine(group, maximum))
    requires groups != [] ==> Full(groups[|groups| - 1], group, maximum)
    ensures Filled(groups + [group], maximum)
  {
  }

  lemma JoinNext(group: seq<string>, word: string)
    requires group != []
    ensures JoinWith(" ", group + [word]) == JoinWith(" ", group) + " " + word
  {
    assert (group + [word])[..|group|] == group;
  }

  // A word that does not fit starts a group of its own.
  lemma StartGroup(groups: seq<seq<string>>, l: Layout, word: string, maximum: nat)
    requires maximum >= 1 && Behind(groups, l, maximum) && word != []
    requires |word| > maximum || |Candidate(l.line, word)| > maximum || l.line == []
    ensures Behind(groups + [[word]], Place(l, word, maximum), maximum)
    ensures Concat(groups + [[word]]) == Concat(groups) + [word]
  {
    AllLinesNext(groups, [word], maximum);
    assert JoinWith(" ", [word]) == word;
    assert (groups + [[word]])[..|groups|] == groups;
    FilledNext(groups, [word], maximum);
    hide AllLines, Concat, JoinWith, Filled, Slices;
  }

  lemma FilledBefore(groups: seq<seq<string>>, last: seq<string>, maximum: nat)
    requires Filled(groups + [last], maximum)
    ensures Filled(groups, maximum) && (groups != [] ==> Full(groups[|groups| - 1], last, maximum))
  {
    hide IsLine, Full;
    var all := groups + [last];
    assert forall g :: 0 <= g < |groups| ==> groups[g] == all[g];
    if groups != [] {
      assert all[|groups| - 1] == groups[|groups| - 1] && all[|groups|] == last;
    }
  }

  // A word that fits joins the last group.
  lemma JoinGroup(before: seq<seq<string>>, last: seq<string>, l: Layout, word: string, maximum: nat)
    requires maximum >= 1 && Behind(before + [last], l, maximum) && word != []
    requires |word| <= maximum && |Candidate(l.line, word)| <= maximum && l.line != []
    ensures Behind(before + [last + [word]], Place(l, word, maximum), maximum)
    ensures Concat(before + [last + [word]]) == Concat(before + [last]) + [word]
  {
    hide AllLines, Concat, JoinWith, Filled, Slices, Full;
    var more := last + [word];
    assert (before + [last])[..|before|] == before && (before + [more])[..|before|] == before;
    assert (before + [last])[|before|] == last && (before + [more])[|before|] == more;
    FilledBefore(before, last, maximum);
    assert last != [] by {
      if last == [] {
        NothingJoined();
      }
    }
    JoinNext(last, word);
    AllLinesNext(before, more, maximum);
    AllLinesNext(before, last, maximum);
    assert Concat(before) + more == (Concat(before) + last) + [word];
    if before != [] {
      FullStays(before[|before| - 1], last, word, maximum);
    }
    FilledNext(before, more, maximum);
  }

  lemma NothingJoined()
    ensures JoinWith(" ", []) == []
  {
  }

  lemma FullStays(group: seq<string>, next: seq<string>, word: string, maximum: nat)
    requires Full(group, next, maximum) && next != [] && !IsLong(next, maximum)
    ensures Full(group, next + [word], maximum)
  {
    hide JoinWith;
  }

  lemma NextWord(groups: seq<seq<string>>, l: Layout, word: string, maximum: nat) returns (more: seq<seq<string>>)
    requires maximum >= 1 && Behind(groups, l, maximum) && word != []
    ensures Behind(more, Place(l, word, maximum), maximum) && Concat(more) == Concat(groups) + [word]
  {
    if |word| > maximum || |Candidate(l.line, word)| > maximum || l.line == [] {
      hide *;
      StartGroup(groups, l, word, maximum);
      more := groups + [[word]];
    } else {
      assert groups != [];
      hide *;
      var before, last := groups[..|groups| - 1], groups[|groups| - 1];
      assert groups == before + [last];
      JoinGroup(before, last, l, word, maximum);
      more := before + [last + [word]];
    }
  }

  lemma {:induction false} WordsAreGrouped(words: seq<string>, maximum: nat) returns (groups: seq<seq<string>>)
    requires maximum >= 1 && AllProper(words)
    ensures Concat(groups) == words && Behind(groups, PlaceAll(words, maximum), maximum)
  {
    if words == [] {
      groups := [];
    } else {
      hide Behind, Concat, Place;
      var shorter, word := words[..|words| - 1], words[|words| - 1];
      assert Proper(word) && words == shorter + [word];
      groups := WordsAreGrouped(shorter, maximum);
      groups := NextWord(groups, PlaceAll(shorter, maximum), word, maximum);
    }
  }

  /** A paragraph's lines are its words in order with single spaces, each line filled before the
      next begins, and a word too long for any line on lines of its own; no words give one empty
      line. */
  lemma LinesAreFilled(paragraph: string, maximum: nat) returns (groups: seq<seq<string>>)
    requires maximum >= 1
    ensures Concat(groups) == Words(paragraph) && Filled(groups, maximum)
    ensures WrappedParagraph(paragraph, maximum) == if groups == [] then [""] else AllLines(groups, maximum)
  {
    WordsAreProper(paragraph);
    groups := WordsAreGrouped(Words(paragraph), maximum);
    assert Concat([]) == [];
  }

  /** The pieces of a long word are full, but for the last, which is not empty. */
  lemma {:induction false} PiecesAreFull(word: string, maximum: nat)
    requires maximum >= 1 && |word| > 0
    ensures var pieces := Slices(word, maximum);
            && Flat(pieces) == word && pieces != []
            && (forall i :: 0 <= i < |pieces| - 1 ==> |pieces[i]| == maximum)
            && 1 <= |pieces[|pieces| - 1]| <= maximum
  {
    FlatSlices(word, maximum);
    if |word| > maximum {
      PiecesAreFull(word[maximum..], maximum);
    }
  }

  // ------------------------------------------------------------------ paragraphs

  /** Paragraphs are what stands between the line feeds, and each is wrapped on its own. */
  lemma {:induction false} ParagraphsAreTheLines(s: string)
    ensures JoinWith("\n", Paragraphs(s)) == s
    ensures forall i :: 0 <= i < |Paragraphs(s)| ==> '\n' !in Paragraphs(s)[i]
  {
    hide *;
    if s == [] {
      NoParagraphs();
      JoinOne("");
    } else {
      ParagraphsAreTheLines(s[1..]);
      ParagraphsCons(s);
      var rest := Paragraphs(s[1..]);
      assert s == [s[0]] + s[1..];
      JoinLeading(s[0], rest);
    }
  }

  lemma JoinOne(line: string)
    ensures JoinWith("\n", [line]) == line
  {
  }

  lemma JoinLeading(c: char, rest: seq<string>)
    requires rest != []
    ensures JoinWith("\n", [[]] + rest) == "\n" + JoinWith("\n", rest)
    ensures JoinWith("\n", [[c] + rest[0]] + rest[1..]) == [c] + JoinWith("\n", rest)
  {
    hide JoinWith;
    JoinFromFront("\n", [[]] + rest);
    assert ([[]] + rest)[1..] == rest;
    if |rest| > 1 {
      JoinFromFront("\n", rest);
      JoinFromFront("\n", [[c] + rest[0]] + rest[1..]);
      assert ([[c] + rest[0]] + rest[1..])[1..] == rest[1..];
    } else {
      JoinOne(rest[0]);
      JoinOne([c] + rest[0]);
      assert rest == [rest[0]] && [[c] + rest[0]] + rest[1..] == [[c] + rest[0]];
    }
  }

  lemma {:induction false} WithoutAppend(a: string, b: string, c: char)
    ensures Without(a + b, c) == Without(a, c) + Without(b, c)
  {
    if a == [] {
      assert a + b == b;
    } else {
      WithoutAppend(a[1..], b, c);
      assert (a + b)[1..] == a[1..] + b && (a + b)[0] == a[0];
      hide *;
      WithoutCons(a + b, c);
      WithoutCons(a, c);
      Associate(if a[0] == c then [] else [a[0]], Without(a[1..], c), Without(b, c));
    }
  }

  lemma WithoutCons(s: string, c: char)
    requires s != []
    ensures Without(s, c) == (if s[0] == c then [] else [s[0]]) + Without(s[1..], c)
  {
  }

  lemma ParagraphsCons(s: string)
    requires s != []
    ensures var rest := Paragraphs(s[1..]);
            Paragraphs(s) == if s[0] == '\n' then [[]] + rest else [[s[0]] + rest[0]] + rest[1..]
  {
  }

  lemma {:induction false} ParagraphsAppend(a: string, b: string)
    ensures Paragraphs(a + "\n" + b) == Paragraphs(a) + Paragraphs(b)
  {
    hide *;
    var s := a + "\n" + b;
    ParagraphsCons(s);
    NoParagraphs();
    if a == [] {
      assert s[1..] == b;
    } else {
      ParagraphsAppend(a[1..], b);
      ParagraphsCons(a);
      assert s[1..] == a[1..] + "\n" + b && s[0] == a[0];
      Leading(s[0], Paragraphs(a[1..]), Paragraphs(b));
    }
  }

  lemma NoParagraphs()
    ensures Paragraphs("") == [""]
  {
  }

  lemma Leading(c: char, a: seq<string>, b: seq<string>)
    requires a != []
    ensures [[c] + (a + b)[0]] + (a + b)[1..] == ([[c] + a[0]] + a[1..]) + b
    ensures [[]] + (a + b) == ([[]] + a) + b
  {
  }

  lemma WrapAllNext(a: seq<string>, paragraph: string, maximum: nat)
    requires maximum >= 1
    ensures WrapAll(a + [paragraph], maximum) == WrapAll(a, maximum) + WrappedParagraph(paragraph, maximum)
  {
    assert (a + [paragraph])[..|a|] == a;
  }

  lemma {:induction false} WrapAllAppend(a: seq<string>, b: seq<string>, maximum: nat)
    requires maximum >= 1
    ensures WrapAll(a + b, maximum) == WrapAll(a, maximum) + WrapAll(b, maximum)
  {
    if b == [] {
      assert a + b == a;
    } else {
      var shorter, last := b[..|b| - 1], b[|b| - 1];
      assert b == shorter + [last] && a + b == (a + shorter) + [last];
      WrapAllAppend(a, shorter, maximum);
      hide *;
      WrapAllNext(a + shorter, last, maximum);
      WrapAllNext(shorter, last, maximum);
      DocumentLines.Regroup(WrapAll(a, maximum), WrapAll(shorter, maximum), WrappedParagraph(last, maximum));
    }
  }

  /** Line feeds separate what is wrapped on its own, carriage returns count for nothing, and a text
      with neither is one paragraph. */
  lemma BreaksSeparate(a: string, b: string, maximum: nat)
    requires maximum >= 1
    ensures Wrapped(a + "\n" + b, maximum) == Wrapped(a, maximum) + Wrapped(b, maximum)
    ensures Wrapped(a + "\r" + b, maximum) == Wrapped(a + b, maximum)
    ensures '\n' !in a && '\r' !in a ==> Wrapped(a, maximum) == WrappedParagraph(a, maximum)
  {
    WithoutAppend(a, "\n", '\r');
    WithoutAppend(a, "\r", '\r');
    WithoutAppend(a + "\n", b, '\r');
    WithoutAppend(a + "\r", b, '\r');
    WithoutAppend(a, b, '\r');
    ParagraphsAppend(Without(a, '\r'), Without(b, '\r'));
    WrapAllAppend(Paragraphs(Without(a, '\r')), Paragraphs(Without(b, '\r')), maximum);
    OneBreak();
    assert Without(a, '\r') + "" == Without(a, '\r');
    hide WrapAll, Paragraphs, WrappedParagraph;
    if '\n' !in a && '\r' !in a {
      NothingToRemove(a);
      OneParagraph(a, maximum);
    }
  }

  lemma OneBreak()
    ensures Without("\n", '\r') == "\n" && Without("\r", '\r') == ""
  {
  }

  lemma OneParagraph(paragraph: string, maximum: nat)
    requires maximum >= 1
    ensures WrapAll([paragraph], maximum) == WrappedParagraph(paragraph, maximum)
  {
    assert [paragraph][..0] == [];
  }
}
