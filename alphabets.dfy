/** The four character classes of the generator and facts about them. */
module Alphabets {
  import opened Selection

  /** The ASCII characters from lo to hi inclusive, in code order. */
  function CharRange(lo: char, hi: char): (r: string)
    requires lo <= hi < 128 as char
    ensures |r| == hi as int - lo as int + 1
    ensures forall k :: 0 <= k < |r| ==> r[k] as int == lo as int + k
  {
    seq(hi as int - lo as int + 1, k requires 0 <= k < hi as int - lo as int + 1 => (lo as int + k) as char)
  }

  /** Lower-case letters. */
  const Lower: string := CharRange('a', 'z')
  /** Upper-case letters. */
  const Upper: string := CharRange('A', 'Z')
  /** Decimal digits. */
  const Numeric: string := CharRange('0', '9')
  /** The printable ASCII punctuation characters, in code order. */
  const Special: string := CharRange('!', '/') + CharRange(':', '@') + CharRange('[', '`') + CharRange('{', '~')

  /** The union of all four classes, in the fixed class order. */
  const All: string := Lower + Upper + Numeric + Special

  /** The classes are exactly the generator's four character-set constants. */
  lemma AlphabetLiterals()
    ensures Lower == "abcdefghijklmnopqrstuvwxyz"
    ensures Upper == "ABCDEFGHIJKLMNOPQRSTUVWXYZ"
    ensures Numeric == "0123456789"
    ensures Special == "!\"#$%&'()*+,-./:;<=>?@[\\]^_`{|}~"
  {
    LowerLiteral();
    UpperLiteral();
    NumericLiteral();
    SpecialLiteral();
  }

  lemma LowerLiteral()
    ensures Lower == "abcdefghijklmnopqrstuvwxyz"
  {
  }

  lemma UpperLiteral()
    ensures Upper == "ABCDEFGHIJKLMNOPQRSTUVWXYZ"
  {
  }

  lemma NumericLiteral()
    ensures Numeric == "0123456789"
  {
  }

  lemma SpecialLiteral()
    ensures Special == "!\"#$%&'()*+,-./:;<=>?@[\\]^_`{|}~"
  {
    assert CharRange('!', '/') == "!\"#$%&'()*+,-./";
    assert CharRange(':', '@') == ":;<=>?@";
    assert CharRange('[', '`') == "[\\]^_`";
    assert CharRange('{', '~') == "{|}~";
  }

  predicate IsAscii(c: char) { c as int < 128 }

  predicate InSpecialRanges(c: char) {
    '!' <= c <= '/' || ':' <= c <= '@' || '[' <= c <= '`' || '{' <= c <= '~'
  }

  lemma InRange(lo: char, hi: char, c: char)
    requires lo <= hi < 128 as char
    ensures c in CharRange(lo, hi) <==> lo <= c <= hi
  {
    if lo <= c <= hi {
      assert CharRange(lo, hi)[c as int - lo as int] == c;
    }
  }

  lemma LowerIsRange(c: char)
    ensures c in Lower <==> 'a' <= c <= 'z'
  {
    InRange('a', 'z', c);
  }

  lemma UpperIsRange(c: char)
    ensures c in Upper <==> 'A' <= c <= 'Z'
  {
    InRange('A', 'Z', c);
  }

  lemma NumericIsRange(c: char)
    ensures c in Numeric <==> '0' <= c <= '9'
  {
    InRange('0', '9', c);
  }

  lemma SpecialIsRanges(c: char)
    ensures c in Special <==> InSpecialRanges(c)
  {
    InRange('!', '/', c);
    InRange(':', '@', c);
    InRange('[', '`', c);
    InRange('{', '~', c);
  }

  /** Each class is ASCII, so its rune count is its length; the classes have these sizes. */
  lemma ClassSizes()
    ensures |Lower| == 26 && |Upper| == 26 && |Numeric| == 10 && |Special| == 32
    ensures |All| == 94
  {
  }

  /** Every character of every class is ASCII. */
  lemma AllAscii(c: char)
    requires c in All
    ensures IsAscii(c)
  {
    LowerIsRange(c);
    UpperIsRange(c);
    NumericIsRange(c);
    SpecialIsRanges(c);
  }

  /** Every two distinct classes share no character, in either direction. */
  lemma ClassesSeparate()
    ensures Separate(Lower, Upper) && Separate(Lower, Numeric) && Separate(Lower, Special)
    ensures Separate(Upper, Lower) && Separate(Upper, Numeric) && Separate(Upper, Special)
    ensures Separate(Numeric, Lower) && Separate(Numeric, Upper) && Separate(Numeric, Special)
    ensures Separate(Special, Lower) && Separate(Special, Upper) && Separate(Special, Numeric)
  {
    forall c {
      ClassesDisjoint(c);
    }
  }

  /** No character belongs to two classes. */
  lemma ClassesDisjoint(c: char)
    ensures c in Lower ==> c !in Upper && c !in Numeric && c !in Special
    ensures c in Upper ==> c !in Numeric && c !in Special
    ensures c in Numeric ==> c !in Special
  {
    LowerIsRange(c);
    UpperIsRange(c);
    NumericIsRange(c);
    SpecialIsRanges(c);
  }
}
