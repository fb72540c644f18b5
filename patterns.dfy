/** The regular expressions the pages test input against, each as the set of
    strings `regex.test` accepts. None of them uses the `m` flag, so `^` and `$`
    anchor at the ends of the whole string. */
module Patterns {
  import opened JsText

  /** `/^[A-Za-z\s]+$/`: one or more ASCII letters or whitespace characters. */
  predicate LettersAndSpaces(s: string) {
    |s| > 0 && forall k :: 0 <= k < |s| ==> IsAsciiLetter(s[k]) || IsWhitespace(s[k])
  }

  /** The message both pages show when a name fails `LettersAndSpaces`. */
  const OnlyAlphabets := "Only alphabets and spaces allowed"

  /** `/^\d+$/`: one or more digits. */
  predicate AllDigits(s: string) {
    |s| > 0 && forall k :: 0 <= k < |s| ==> IsDigit(s[k])
  }

  /** `/^\d{0,max}$/`: at most `max` digits, possibly none. */
  predicate DigitsUpTo(s: string, max: nat) {
    |s| <= max && forall k :: 0 <= k < |s| ==> IsDigit(s[k])
  }

  /** `/^\d{n}$/`: exactly `n` digits. */
  predicate DigitsExactly(s: string, n: nat) {
    |s| == n && forall k :: 0 <= k < |s| ==> IsDigit(s[k])
  }

  /** `/\d/`: some digit occurs. */
  predicate HasDigit(s: string) {
    exists k :: 0 <= k < |s| && IsDigit(s[k])
  }

  /** `/[a-zA-Z]/`: some ASCII letter occurs. */
  predicate HasAsciiLetter(s: string) {
    exists k :: 0 <= k < |s| && IsAsciiLetter(s[k])
  }

  /** `[^\s@]+`: a non-empty run of characters that are neither whitespace nor '@'. */
  predicate EmailAtom(t: string) {
    |t| > 0 && forall k :: 0 <= k < |t| ==> t[k] != '@' && !IsWhitespace(t[k])
  }

  /** `/^[^\s@]+@[^\s@]+\.[^\s@]+$/`: the string splits as atom '@' atom '.' atom,
      for some position `i` of the '@' and `j` of the '.'. */
  predicate MatchesEmail(s: string) {
    exists i, j | 0 <= i < j < |s| ::
      s[i] == '@' && s[j] == '.' && EmailAtom(s[..i]) && EmailAtom(s[i + 1..j]) && EmailAtom(s[j + 1..])
  }

  /** `s` holds '@' at `i` and nowhere else. */
  predicate OnlyAtSignAt(s: string, i: int) {
    0 <= i < |s| && s[i] == '@' && forall k :: 0 <= k < |s| && k != i ==> s[k] != '@'
  }

  /** What the e-mail pattern amounts to: no whitespace, exactly one '@', a non-empty
      local part, and a '.' in the domain that is neither its first nor its last
      character. */
  predicate EmailShape(s: string) {
    && (forall k :: 0 <= k < |s| ==> !IsWhitespace(s[k]))
    && exists i :: 0 < i < |s| && OnlyAtSignAt(s, i) && exists j :: i + 1 < j < |s| - 1 && s[j] == '.'
  }

  lemma MatchesEmailCharacterized(s: string)
    ensures MatchesEmail(s) <==> EmailShape(s)
  {
    if MatchesEmail(s) {
      MatchesEmailHasShape(s);
    }
    if EmailShape(s) {
      ShapeMatchesEmail(s);
    }
  }

  lemma MatchesEmailHasShape(s: string)
    requires MatchesEmail(s)
    ensures EmailShape(s)
  {
    var i, j :| 0 <= i < j < |s| && s[i] == '@' && s[j] == '.' &&
      EmailAtom(s[..i]) && EmailAtom(s[i + 1..j]) && EmailAtom(s[j + 1..]);
    forall k | 0 <= k < |s|
      ensures !IsWhitespace(s[k]) && (k != i ==> s[k] != '@')
    {
      if k < i {
        assert s[k] == s[..i][k];
      } else if i < k < j {
        assert s[k] == s[i + 1..j][k - i - 1];
      } else if j < k {
        assert s[k] == s[j + 1..][k - j - 1];
      }
    }
    assert OnlyAtSignAt(s, i);
  }

  lemma ShapeMatchesEmail(s: string)
    requires EmailShape(s)
    ensures MatchesEmail(s)
  {
    var i :| 0 < i < |s| && OnlyAtSignAt(s, i) && exists j :: i + 1 < j < |s| - 1 && s[j] == '.';
    var j :| i + 1 < j < |s| - 1 && s[j] == '.';
    assert EmailAtom(s[..i]);
    assert EmailAtom(s[i + 1..j]);
    assert EmailAtom(s[j + 1..]);
  }
}
