/**
  The printable form of a text: after the Unicode normalisation, which is a parameter, five passes
  over single characters.
*/
module Ascii {
  import opened Escape

  // replace() with a character class and the flag g.
  function ReplaceClass(s: string, member: char -> bool, image: string): string {
    if s == [] then [] else (if member(s[0]) then image else [s[0]]) + ReplaceClass(s[1..], member, image)
  }

  function IsMark(c: char): bool {
    '\U{0300}' <= c <= '\U{036F}'
  }

  function IsSingleQuote(c: char): bool {
    c == '\U{2018}' || c == '\U{2019}' || c == '\U{201A}' || c == '\U{201B}'
  }

  function IsDoubleQuote(c: char): bool {
    c == '\U{201C}' || c == '\U{201D}' || c == '\U{201E}' || c == '\U{201F}'
  }

  function IsBullet(c: char): bool {
    c == '\U{2022}' || c == '\U{00B7}'
  }

  function IsUnprintable(c: char): bool {
    c < ' ' || c > '~'
  }

  function Unmarked(s: string): string {
    ReplaceClass(s, IsMark, "")
  }

  function Printed(s: string): string {
    var quoted := ReplaceClass(ReplaceClass(Unmarked(s), IsSingleQuote, "'"), IsDoubleQuote, "\"");
    ReplaceClass(ReplaceClass(quoted, IsBullet, "-"), IsUnprintable, "?")
  }

  // What each character becomes, by its code point.
  function Image(c: char): string {
    var u := c as int;
    if 0x20 <= u <= 0x7E then [c]
    else if 768 <= u <= 879 then ""
    else if 8216 <= u <= 8219 then "'"
    else if 8220 <= u <= 8223 then "\""
    else if u == 8226 || u == 183 then "-"
    else "?"
  }

  lemma {:induction false} ClassAppend(a: string, b: string, member: char -> bool, image: string)
    ensures ReplaceClass(a + b, member, image) == ReplaceClass(a, member, image) + ReplaceClass(b, member, image)
  {
    if a == [] {
      assert a + b == b;
    } else {
      ClassAppend(a[1..], b, member, image);
      assert (a + b)[1..] == a[1..] + b && (a + b)[0] == a[0];
    }
  }

  lemma PrintedAppend(a: string, b: string)
    ensures Printed(a + b) == Printed(a) + Printed(b)
  {
    hide ReplaceClass;
    ClassAppend(a, b, IsMark, "");
    var a1, b1 := Unmarked(a), Unmarked(b);
    ClassAppend(a1, b1, IsSingleQuote, "'");
    var a2, b2 := ReplaceClass(a1, IsSingleQuote, "'"), ReplaceClass(b1, IsSingleQuote, "'");
    ClassAppend(a2, b2, IsDoubleQuote, "\"");
    var a3, b3 := ReplaceClass(a2, IsDoubleQuote, "\""), ReplaceClass(b2, IsDoubleQuote, "\"");
    ClassAppend(a3, b3, IsBullet, "-");
    var a4, b4 := ReplaceClass(a3, IsBullet, "-"), ReplaceClass(b3, IsBullet, "-");
    ClassAppend(a4, b4, IsUnprintable, "?");
  }

  lemma ClassOfOne(c: char, member: char -> bool, image: string)
    ensures ReplaceClass([c], member, image) == if member(c) then image else [c]
    ensures ReplaceClass("", member, image) == ""
  {
    assert [c][1..] == [] && ReplaceClass([], member, image) == [];
    assert (if member(c) then image else [c]) + [] == if member(c) then image else [c];
  }

  lemma PrintedOne(c: char)
    ensures Printed([c]) == Image(c) && Printed("") == ""
  {
    hide ReplaceClass;
    ClassOfOne(c, IsMark, "");
    ClassOfOne(c, IsSingleQuote, "'");
    ClassOfOne('\'', IsDoubleQuote, "\"");
    ClassOfOne('\'', IsBullet, "-");
    ClassOfOne('\'', IsUnprintable, "?");
    ClassOfOne(c, IsDoubleQuote, "\"");
    ClassOfOne('"', IsBullet, "-");
    ClassOfOne('"', IsUnprintable, "?");
    ClassOfOne(c, IsBullet, "-");
    ClassOfOne('-', IsUnprintable, "?");
    ClassOfOne(c, IsUnprintable, "?");
    assert "'" == ['\''] && "\"" == ['"'] && "-" == ['-'];
  }

  /** The passes are one substitution, and what they leave is printable. */
  lemma {:induction false} PassesAreOne(s: string)
    ensures Printed(s) == Substituted(s, Image)
    ensures forall i :: 0 <= i < |Printed(s)| ==> ' ' <= Printed(s)[i] <= '~'
  {
    hide Printed;
    if s == [] {
      PrintedOne(' ');
    } else {
      PassesAreOne(s[1..]);
      PrintedOne(s[0]);
      PrintedAppend([s[0]], s[1..]);
      assert [s[0]] + s[1..] == s;
    }
  }
}
