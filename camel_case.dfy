/**
 * Character and string helpers the field describer is built on: ASCII case
 * conversion, capitalising the first letter, recognising a camel-case word
 * prefix, and turning a camel-case identifier into a lower-case phrase of
 * space-separated words ("isNotBad" becomes "is not bad").
 */
module CamelCase {

  predicate IsUpper(c: char) { 'A' <= c <= 'Z' }

  predicate IsLower(c: char) { 'a' <= c <= 'z' }

  /** Upper-cases an ASCII lower-case letter and leaves every other character alone. */
  function ToUpper(c: char): (u: char)
    ensures IsLower(c) ==> IsUpper(u)
    ensures !IsLower(c) ==> u == c
  {
    if IsLower(c) then (c as int - 32) as char else c
  }

  /** Lower-cases an ASCII upper-case letter and leaves every other character alone. */
  function ToLower(c: char): (l: char)
    ensures !IsUpper(l)
    ensures IsUpper(c) ==> IsLower(l) && ToUpper(l) == c
    ensures !IsUpper(c) ==> l == c
  {
    if IsUpper(c) then (c as int + 32) as char else c
  }

  /** The string with its first character upper-cased, the rest untouched. */
  function Capitalize(s: string): (r: string)
    ensures |r| == |s|
    ensures |s| > 0 ==> r[1..] == s[1..]
    ensures |s| > 0 && IsLower(s[0]) ==> IsUpper(r[0]) && ToLower(r[0]) == s[0]
  {
    if |s| == 0 then s else [ToUpper(s[0])] + s[1..]
  }

  /** The string with its first character lower-cased, the rest untouched. */
  function Uncapitalize(s: string): (r: string)
    ensures |r| == |s|
    ensures |s| > 0 ==> r[1..] == s[1..] && !IsUpper(r[0])
  {
    if |s| == 0 then s else [ToLower(s[0])] + s[1..]
  }

  /** Capitalising a word that starts with a lower-case letter loses nothing. */
  lemma UncapitalizeCapitalize(s: string)
    requires |s| > 0 && IsLower(s[0])
    ensures Uncapitalize(Capitalize(s)) == s
  {
    assert [s[0]] + s[1..] == s;
  }

  /**
   * `token` is a whole camel-case word at the start of `s`: `s` starts with it
   * and the next character opens a new word with an upper-case letter.
   */
  predicate HasWordPrefix(s: string, token: string)
  {
    |token| < |s| && s[..|token|] == token && IsUpper(s[|token|])
  }

  /**
   * The continuation of a phrase: every upper-case letter starts a new word,
   * so it becomes a space followed by the letter in lower case.
   */
  function SpaceWords(s: string): (r: string)
  {
    if |s| == 0 then []
    else (if IsUpper(s[0]) then [' ', ToLower(s[0])] else [s[0]]) + SpaceWords(s[1..])
  }

  /** The lower-case phrase of a camel-case identifier: "canBeGood" becomes "can be good". */
  function Humanise(s: string): (r: string)
    ensures |s| > 0 ==> |r| > 0 && r[0] == ToLower(s[0])
  {
    if |s| == 0 then [] else [ToLower(s[0])] + SpaceWords(s[1..])
  }

  /** A phrase holds no upper-case letter, and splitting into words only lengthens it. */
  lemma {:induction false} SpaceWordsIsLowerCase(s: string)
    ensures |SpaceWords(s)| >= |s|
    ensures forall i :: 0 <= i < |SpaceWords(s)| ==> !IsUpper(SpaceWords(s)[i])
  {
    if |s| > 0 {
      SpaceWordsIsLowerCase(s[1..]);
    }
  }

  lemma HumaniseIsLowerCase(s: string)
    ensures |Humanise(s)| >= |s|
    ensures forall i :: 0 <= i < |Humanise(s)| ==> !IsUpper(Humanise(s)[i])
  {
    if |s| > 0 {
      SpaceWordsIsLowerCase(s[1..]);
    }
  }

  lemma {:induction false} SpaceWordsAppend(a: string, b: string)
    ensures SpaceWords(a + b) == SpaceWords(a) + SpaceWords(b)
  {
    if |a| == 0 {
      assert a + b == b;
    } else {
      assert (a + b)[0] == a[0];
      assert (a + b)[1..] == a[1..] + b;
      SpaceWordsAppend(a[1..], b);
    }
  }

  /** The phrase of a concatenation is the phrase of its head continued by the tail's words. */
  lemma HumaniseAppend(a: string, b: string)
    requires |a| > 0
    ensures Humanise(a + b) == Humanise(a) + SpaceWords(b)
  {
    assert (a + b)[0] == a[0];
    assert (a + b)[1..] == a[1..] + b;
    SpaceWordsAppend(a[1..], b);
  }

  /**
   * Where the spaces go: extending an identifier by one character (not the
   * first) extends its phrase by that character, preceded by a space exactly
   * when it is an upper-case letter, which is then lower-cased.
   */
  lemma HumaniseSnoc(s: string, i: nat)
    requires 0 < i < |s|
    ensures Humanise(s[..i + 1]) == Humanise(s[..i]) + (if IsUpper(s[i]) then [' ', ToLower(s[i])] else [s[i]])
  {
    assert s[..i + 1] == s[..i] + [s[i]];
    HumaniseAppend(s[..i], [s[i]]);
    assert SpaceWords([s[i]]) == (if IsUpper(s[i]) then [' ', ToLower(s[i])] else [s[i]]) + SpaceWords([]);
  }

  /** Every character of `s` in lower case. */
  function LowerAll(s: string): (r: string)
    ensures |r| == |s|
    ensures forall i :: 0 <= i < |s| ==> r[i] == ToLower(s[i])
  {
    if |s| == 0 then [] else [ToLower(s[0])] + LowerAll(s[1..])
  }

  /** `s` with its spaces removed. */
  function RemoveSpaces(s: string): (r: string)
    ensures |r| <= |s|
    ensures ' ' !in r
  {
    if |s| == 0 then [] else (if s[0] == ' ' then [] else [s[0]]) + RemoveSpaces(s[1..])
  }

  lemma {:induction false} RemoveSpacesAppend(a: string, b: string)
    ensures RemoveSpaces(a + b) == RemoveSpaces(a) + RemoveSpaces(b)
  {
    if |a| == 0 {
      assert a + b == b;
    } else {
      var head := if a[0] == ' ' then [] else [a[0]];
      calc {
        RemoveSpaces(a + b);
        { assert (a + b)[0] == a[0]; }
        head + RemoveSpaces((a + b)[1..]);
        { assert (a + b)[1..] == a[1..] + b; RemoveSpacesAppend(a[1..], b); }
        head + (RemoveSpaces(a[1..]) + RemoveSpaces(b));
        (head + RemoveSpaces(a[1..])) + RemoveSpaces(b);
      }
    }
  }

  lemma {:induction false} SpaceWordsOnlyAddsSpaces(s: string)
    requires ' ' !in s
    ensures RemoveSpaces(SpaceWords(s)) == LowerAll(s)
  {
    if |s| > 0 {
      var head := if IsUpper(s[0]) then [' ', ToLower(s[0])] else [s[0]];
      RemoveSpacesAppend(head, SpaceWords(s[1..]));
      assert RemoveSpaces(head) == [ToLower(s[0])] by {
        if IsUpper(s[0]) {
          assert head[1..] == [ToLower(s[0])];
        }
      }
      assert s[0] in s;
      assert forall c :: c in s[1..] ==> c in s;
      SpaceWordsOnlyAddsSpaces(s[1..]);
    }
  }

  /**
   * Humanising only splits words and lower-cases: for an identifier without
   * spaces, taking the spaces back out gives the identifier in lower case.
   */
  lemma HumaniseOnlySplitsAndLowers(s: string)
    requires ' ' !in s
    ensures RemoveSpaces(Humanise(s)) == LowerAll(s)
  {
    if |s| > 0 {
      RemoveSpacesAppend([ToLower(s[0])], SpaceWords(s[1..]));
      assert forall c :: c in s[1..] ==> c in s;
      SpaceWordsOnlyAddsSpaces(s[1..]);
      assert ToLower(s[0]) != ' ' by { assert s[0] in s; }
    }
  }

  /** `sub` occurs somewhere in `s`. */
  predicate Contains(s: string, sub: string)
  {
    exists i :: 0 <= i <= |s| && sub <= s[i..]
  }

  /** The middle part of a concatenation occurs in it. */
  lemma ContainsMiddle(a: string, b: string, c: string)
    ensures Contains(a + b + c, b)
  {
    assert (a + b + c)[|a|..] == b + c;
  }
}
