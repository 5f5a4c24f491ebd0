/**
 * Language detection of the bot (bot.py `detect_language`): a text is Russian
 * when more than a third of its characters, once lower-cased, are Cyrillic
 * letters `а`..`я` or `ё`; otherwise it is English.
 */
module LanguageDetection {

  datatype Lang = En | Ru

  /**
   * The capitals whose lower case is an ASCII or a Cyrillic small letter: A..Z, А..Я, Ё
   * and the Kelvin sign U+212A, which Python lowers to `k`.
   */
  predicate IsCapital(c: char) {
    'A' <= c <= 'Z' || 'А' <= c <= 'Я' || c == 'Ё' || c == '\U{212A}'
  }

  /** Lower-casing of one character, as Python's `str.lower()` does it for `IsCapital` characters. */
  function LowerChar(c: char): (d: char)
    ensures !IsCapital(d)
    ensures 'A' <= c <= 'Z' || 'А' <= c <= 'Я' ==> d as int == c as int + 32
    ensures c == 'Ё' ==> d == 'ё'
    ensures c == '\U{212A}' ==> d == 'k'
    ensures !IsCapital(c) ==> d == c
  {
    if 'A' <= c <= 'Z' then (c as int + 32) as char
    else if 'А' <= c <= 'Я' then (c as int + 32) as char
    else if c == 'Ё' then 'ё'
    else if c == '\U{212A}' then 'k'
    else c
  }

  /**
   * Python's `str.lower()`, restricted to the `IsCapital` characters: same length, no capital
   * left, every capital replaced by its small letter, every other character kept.
   */
  function Lower(s: string): (t: string)
    ensures |t| == |s|
    ensures forall i :: 0 <= i < |t| ==> !IsCapital(t[i])
    ensures forall i :: 0 <= i < |s| && !IsCapital(s[i]) ==> t[i] == s[i]
    ensures forall i :: 0 <= i < |s| ==> t[i] == LowerChar(s[i])
  {
    seq(|s|, i requires 0 <= i < |s| => LowerChar(s[i]))
  }

  /** The character test inside `detect_language`. */
  predicate IsCyrillic(c: char)
    ensures IsCyrillic(c) ==> !IsCapital(c)
  {
    'а' <= c <= 'я' || c == 'ё'
  }

  /** The number of Cyrillic letters in `s`; at most every character is one. */
  function CyrillicCount(s: string): (n: nat)
    ensures n <= |s|
  {
    if s == [] then 0 else (if IsCyrillic(s[0]) then 1 else 0) + CyrillicCount(s[1..])
  }

  /**
   * `detect_language`: `ru_chars > len(text) / 3` compares with a true
   * division, which for integers is the same as `3 * ru_chars > len(text)`.
   */
  function DetectLanguage(text: string): (l: Lang)
    ensures l == Ru <==> CyrillicCount(Lower(text)) as real > |text| as real / 3.0
  {
    if 3 * CyrillicCount(Lower(text)) > |text| then Ru else En
  }

  lemma {:induction false} LowerCharIdempotent(c: char)
    ensures LowerChar(LowerChar(c)) == LowerChar(c)
  {
  }

  /** Lower-casing twice is lower-casing once. */
  lemma {:induction false} LowerIdempotent(s: string)
    ensures Lower(Lower(s)) == Lower(s)
  {
    forall i | 0 <= i < |s|
      ensures Lower(Lower(s))[i] == Lower(s)[i]
    {
      LowerCharIdempotent(s[i]);
    }
  }

  /** The count of a concatenation is the sum of the counts. */
  lemma {:induction false} CyrillicCountAppend(a: string, b: string)
    ensures CyrillicCount(a + b) == CyrillicCount(a) + CyrillicCount(b)
  {
    if a == [] {
      assert a + b == b;
    } else {
      assert (a + b)[0] == a[0];
      assert (a + b)[1..] == a[1..] + b;
      CyrillicCountAppend(a[1..], b);
    }
  }

  /** The count is zero exactly when no character is Cyrillic. */
  lemma {:induction false} CyrillicCountZero(s: string)
    ensures CyrillicCount(s) == 0 <==> forall i :: 0 <= i < |s| ==> !IsCyrillic(s[i])
  {
    if s != [] {
      CyrillicCountZero(s[1..]);
      assert forall i :: 1 <= i < |s| ==> s[i] == s[1..][i - 1];
    }
  }

  /** The count is the length exactly when every character is Cyrillic. */
  lemma {:induction false} CyrillicCountFull(s: string)
    ensures CyrillicCount(s) == |s| <==> forall i :: 0 <= i < |s| ==> IsCyrillic(s[i])
  {
    if s != [] {
      CyrillicCountFull(s[1..]);
      assert forall i :: 1 <= i < |s| ==> s[i] == s[1..][i - 1];
    }
  }

  /** Text without a single Cyrillic letter is English. */
  lemma NoCyrillicIsEnglish(text: string)
    requires forall i :: 0 <= i < |text| ==> !IsCyrillic(LowerChar(text[i]))
    ensures DetectLanguage(text) == En
  {
    CyrillicCountZero(Lower(text));
  }

  /** Text of which at least 34 percent of the characters are Cyrillic letters is Russian. */
  lemma ThirtyFourPercentIsRussian(text: string)
    requires |text| > 0
    requires 100 * CyrillicCount(Lower(text)) >= 34 * |text|
    ensures DetectLanguage(text) == Ru
  {
  }

  /** Non-empty text made only of Cyrillic letters, in either case, is Russian. */
  lemma AllCyrillicIsRussian(text: string)
    requires |text| > 0
    requires forall i :: 0 <= i < |text| ==> IsCyrillic(LowerChar(text[i]))
    ensures DetectLanguage(text) == Ru
  {
    CyrillicCountFull(Lower(text));
  }

  /** Detection does not care whether the text was lower-cased first. */
  lemma DetectLanguageIgnoresCase(text: string)
    ensures DetectLanguage(Lower(text)) == DetectLanguage(text)
  {
    LowerIdempotent(text);
  }
}
