// The display title of a deck on the index page: the deck's directory name
// with every `-` replaced by a space, then every character matched by the
// JavaScript regular expression `\b\w` (global flag) upper-cased.

module Titles {

  /** The JavaScript class `\w` (without the `u` flag): ASCII letters, digits and `_`. */
  predicate IsWordChar(c: char) {
    'a' <= c <= 'z' || 'A' <= c <= 'Z' || '0' <= c <= '9' || c == '_'
  }

  /** `toUpperCase` applied to a character that `\w` matched: only `a`-`z` change. */
  function ToUpper(c: char): (u: char)
    ensures IsWordChar(u) == IsWordChar(c)
    ensures 'a' <= c <= 'z' ==> u == "ABCDEFGHIJKLMNOPQRSTUVWXYZ"[c as int - 'a' as int]
    ensures !('a' <= c <= 'z') ==> u == c
  {
    if 'a' <= c <= 'z' then (c as int - 'a' as int + 'A' as int) as char else c
  }

  /** `s.replace(/-/g, ' ')`. */
  function ReplaceDashes(s: string): (r: string)
    ensures |r| == |s|
  {
    if s == [] then [] else [if s[0] == '-' then ' ' else s[0]] + ReplaceDashes(s[1..])
  }

  /** `s.replace(/\b\w/g, l => l.toUpperCase())`, as the regular-expression
      engine runs it: left to right, one character per match, where
      `afterWord` tells whether the character before `s` is a word character
      (false at the start of the string, where `\b` sees a non-word). */
  function CapitalizeWords(s: string, afterWord: bool): (r: string)
    ensures |r| == |s|
  {
    if s == [] then []
    else
      var c := if IsWordChar(s[0]) && !afterWord then ToUpper(s[0]) else s[0];
      [c] + CapitalizeWords(s[1..], IsWordChar(s[0]))
  }

  /** The title shown for the deck `name`. */
  function Title(name: string): (t: string)
    ensures |t| == |name|
  {
    CapitalizeWords(ReplaceDashes(name), false)
  }

  /** `\b\w` matches at position `i` of `s`: a word character at the start of
      the string or right after a non-word character. */
  predicate AtWordStart(s: string, i: nat)
    requires i < |s|
  {
    IsWordChar(s[i]) && (i == 0 || !IsWordChar(s[i - 1]))
  }

  /** The character the title should hold at position `i`, stated on the
      deck name itself: a word character at a word start is upper-cased, a
      `-` becomes a space, and every other character is kept. */
  function ExpectedTitleChar(name: string, i: nat): char
    requires i < |name|
  {
    if AtWordStart(name, i) then ToUpper(name[i])
    else if name[i] == '-' then ' '
    else name[i]
  }

  lemma {:induction false} ReplaceDashesAt(s: string, i: nat)
    requires i < |s|
    ensures ReplaceDashes(s)[i] == if s[i] == '-' then ' ' else s[i]
  {
    if i > 0 {
      ReplaceDashesAt(s[1..], i - 1);
    }
  }

  lemma {:induction false} CapitalizeWordsAt(s: string, afterWord: bool, i: nat)
    requires i < |s|
    ensures CapitalizeWords(s, afterWord)[i] ==
      if IsWordChar(s[i]) && (if i == 0 then !afterWord else !IsWordChar(s[i - 1]))
      then ToUpper(s[i]) else s[i]
  {
    if i > 0 {
      CapitalizeWordsAt(s[1..], IsWordChar(s[0]), i - 1);
    }
  }

  /** The left-to-right scan puts the expected character at every position. */
  lemma TitleAt(name: string, i: nat)
    requires i < |name|
    ensures Title(name)[i] == ExpectedTitleChar(name, i)
  {
    var s := ReplaceDashes(name);
    ReplaceDashesAt(name, i);
    if i > 0 {
      ReplaceDashesAt(name, i - 1);
    }
    CapitalizeWordsAt(s, false, i);
  }

  /** The title has the name's length, holds no `-`, and differs from the
      name only where a `-` became a space or a lower-case ASCII letter was
      upper-cased. */
  lemma TitleChanges(name: string)
    ensures |Title(name)| == |name|
    ensures '-' !in Title(name)
    ensures forall i :: 0 <= i < |name| ==>
      Title(name)[i] == name[i]
      || (name[i] == '-' && Title(name)[i] == ' ')
      || ('a' <= name[i] <= 'z' && Title(name)[i] == ToUpper(name[i]))
  {
    var t := Title(name);
    forall i | 0 <= i < |name|
      ensures t[i] != '-'
      ensures t[i] == name[i] || (name[i] == '-' && t[i] == ' ')
        || ('a' <= name[i] <= 'z' && t[i] == ToUpper(name[i]))
    {
      TitleAt(name, i);
    }
  }

  /** Word characters stay word characters and nothing else becomes one. */
  lemma TitleKeepsWordChars(name: string, i: nat)
    requires i < |name|
    ensures IsWordChar(Title(name)[i]) == IsWordChar(name[i])
  {
    TitleAt(name, i);
  }

  /** Titling a title changes nothing. */
  lemma TitleIdempotent(name: string)
    ensures Title(Title(name)) == Title(name)
  {
    var t := Title(name);
    forall i | 0 <= i < |t|
      ensures Title(t)[i] == t[i]
    {
      TitleAt(name, i);
      TitleAt(t, i);
      TitleKeepsWordChars(name, i);
      if i > 0 {
        TitleKeepsWordChars(name, i - 1);
      }
    }
  }

  /** A string made of the expected characters is the title. */
  lemma TitleIs(name: string, expected: string)
    requires |expected| == |name|
    requires forall i :: 0 <= i < |name| ==> expected[i] == ExpectedTitleChar(name, i)
    ensures Title(name) == expected
  {
    forall i | 0 <= i < |name|
      ensures Title(name)[i] == expected[i]
    {
      TitleAt(name, i);
    }
  }

  /** Sample deck names and their titles. */
  lemma TitleExamples()
    ensures Title("deep-dive") == "Deep Dive"
    ensures Title("intro") == "Intro"
    ensures Title("") == ""
  {
    TitleIs("deep-dive", "Deep Dive");
    TitleIs("intro", "Intro");
  }

  /** `_` and digits are word characters for `\w`: no word starts after `_`,
      and a name starting with a digit keeps its next letter in lower case. */
  lemma TitleWordCharExamples()
    ensures Title("a_b") == "A_b"
    ensures Title("1st-talk") == "1st Talk"
  {
    TitleIs("a_b", "A_b");
    TitleIs("1st-talk", "1st Talk");
  }
}
