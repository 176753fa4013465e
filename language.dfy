/** `DetermineLanguage`: a message is Russian when it has more Cyrillic letters than
    Latin ones, English otherwise. */
module Language {

  datatype Lang = EN | RU

  /** `[А-Яа-я]`: the code points U+0410 to U+044F (Ё and ё are not in the class). */
  predicate IsCyrillic(c: char)
  {
    '\U{0410}' <= c <= '\U{044F}'
  }

  /** `[A-Za-z]` */
  predicate IsLatin(c: char)
  {
    'A' <= c <= 'Z' || 'a' <= c <= 'z'
  }

  /** Number of matches of `/[А-Яа-я]/g`. */
  function CyrillicCount(s: string): nat
  {
    if s == [] then 0 else CyrillicCount(s[..|s| - 1]) + (if IsCyrillic(s[|s| - 1]) then 1 else 0)
  }

  /** Number of matches of `/[A-Za-z]/g`. */
  function LatinCount(s: string): nat
  {
    if s == [] then 0 else LatinCount(s[..|s| - 1]) + (if IsLatin(s[|s| - 1]) then 1 else 0)
  }

  /** Russian needs more Cyrillic than Latin letters, so a Russian text is less than half
      Latin, and an English one at most half Cyrillic. */
  function DetermineLanguage(s: string): (l: Lang)
    ensures l == RU ==> 2 * LatinCount(s) < |s|
    ensures l == EN ==> 2 * CyrillicCount(s) <= |s|
  {
    CountsBounded(s);
    if CyrillicCount(s) > LatinCount(s) then RU else EN
  }

  /** The two letter classes are disjoint, so together they count at most every character. */
  lemma {:induction false} CountsBounded(s: string)
    ensures CyrillicCount(s) + LatinCount(s) <= |s|
  {
    if s != [] {
      CountsBounded(s[..|s| - 1]);
    }
  }

  /** Both counts add up over concatenation. */
  lemma {:induction false} CountsAppend(a: string, b: string)
    ensures CyrillicCount(a + b) == CyrillicCount(a) + CyrillicCount(b)
    ensures LatinCount(a + b) == LatinCount(a) + LatinCount(b)
    decreases |b|
  {
    if b == [] {
      assert a + b == a;
    } else {
      var init := b[..|b| - 1];
      assert (a + b)[..|a + b| - 1] == a + init;
      assert (a + b)[|a + b| - 1] == b[|b| - 1];
      CountsAppend(a, init);
    }
  }

  /** Joining two texts in the same language keeps that language; in particular a tie
      anywhere never tips English text into Russian. */
  lemma LanguageOfConcat(a: string, b: string)
    requires DetermineLanguage(a) == DetermineLanguage(b)
    ensures DetermineLanguage(a + b) == DetermineLanguage(a)
  {
    CountsAppend(a, b);
  }

  /** A text with no Cyrillic letter is English, and a text made of Cyrillic letters only,
      at least one, is Russian. */
  lemma {:induction false} PureScripts(s: string)
    ensures (forall i :: 0 <= i < |s| ==> !IsCyrillic(s[i])) ==> DetermineLanguage(s) == EN
    ensures s != [] && (forall i :: 0 <= i < |s| ==> IsCyrillic(s[i])) ==> DetermineLanguage(s) == RU
  {
    if s != [] {
      var init := s[..|s| - 1];
      PureScripts(init);
      assert forall i :: 0 <= i < |init| ==> init[i] == s[i];
    }
    CountsBounded(s);
  }
}
