/** The JavaScript string primitives the pages and the backend rely on: the `\s` character class,
    `trim`, `length` (counted in UTF-16 code units), `toLowerCase`, `padStart`,
    `replace` with a string pattern, and digit strings in base 10 and 16
    (`String(n)`, `toString('hex')`). */
module JsText {
  import opened Seqs

  /** A character matched by `\s` in a JavaScript regular expression and removed by
      `String.prototype.trim`: ECMAScript's WhiteSpace and LineTerminator sets. */
  predicate IsWhitespace(c: char) {
    c == '\t' || c == '\n' || c == '\U{000B}' || c == '\U{000C}' || c == '\r' ||
    c == ' ' || c == '\U{00A0}' || c == '\U{1680}' || ('\U{2000}' <= c <= '\U{200A}') ||
    c == '\U{2028}' || c == '\U{2029}' || c == '\U{202F}' || c == '\U{205F}' ||
    c == '\U{3000}' || c == '\U{FEFF}'
  }

  /** A character of the class `[A-Za-z]`. */
  predicate IsAsciiLetter(c: char) {
    'A' <= c <= 'Z' || 'a' <= c <= 'z'
  }

  /** A character of the class `\d`, which in JavaScript is exactly `[0-9]`. */
  predicate IsDigit(c: char) {
    '0' <= c <= '9'
  }

  /** The number of UTF-16 code units of `s`, which is what `s.length` reports:
      a character outside the Basic Multilingual Plane takes two. */
  function JsLength(s: string): (n: nat)
    ensures |s| <= n <= 2 * |s|
    ensures n == |s| <==> forall k :: 0 <= k < |s| ==> s[k] <= '\U{FFFF}'
  {
    if s == [] then 0 else (if s[0] <= '\U{FFFF}' then 1 else 2) + JsLength(s[1..])
  }

  /** `s` with its leading whitespace removed. */
  function TrimStart(s: string): (r: string)
    ensures |r| <= |s| && r == s[|s| - |r|..]
    ensures r == [] || !IsWhitespace(r[0])
    ensures forall k :: 0 <= k < |s| - |r| ==> IsWhitespace(s[k])
  {
    if s != [] && IsWhitespace(s[0]) then TrimStart(s[1..]) else s
  }

  /** `s` with its trailing whitespace removed. */
  function TrimEnd(s: string): (r: string)
    ensures |r| <= |s| && r == s[..|r|]
    ensures r == [] || !IsWhitespace(r[|r| - 1])
    ensures forall k :: |r| <= k < |s| ==> IsWhitespace(s[k])
  {
    if s != [] && IsWhitespace(s[|s| - 1]) then TrimEnd(s[..|s| - 1]) else s
  }

  /** `r` is `s[i..j]` and everything of `s` outside that infix is whitespace. */
  predicate WhitespaceAround(s: string, r: string, i: int, j: int) {
    && 0 <= i <= j <= |s| && r == s[i..j]
    && (forall k :: 0 <= k < i ==> IsWhitespace(s[k]))
    && (forall k :: j <= k < |s| ==> IsWhitespace(s[k]))
  }

  /** `s.trim()`: the infix of `s` left once the whitespace at both ends is
      removed; it is empty exactly when `s` is all whitespace. */
  function Trim(s: string): (r: string)
    ensures |r| <= |s|
    ensures r == [] || (!IsWhitespace(r[0]) && !IsWhitespace(r[|r| - 1]))
    ensures r == [] <==> forall k :: 0 <= k < |s| ==> IsWhitespace(s[k])
    ensures exists i, j :: WhitespaceAround(s, r, i, j)
  {
    TrimIsInfix(s);
    TrimEnd(TrimStart(s))
  }

  lemma TrimIsInfix(s: string)
    ensures var t := TrimStart(s);
      WhitespaceAround(s, TrimEnd(t), |s| - |t|, |s| - |t| + |TrimEnd(t)|)
  {
    var t := TrimStart(s);
    var r := TrimEnd(t);
    PrefixOfSuffix(s, |s| - |t|, |r|);
    TailOfSuffix(s, t, |r|);
  }

  /** A prefix of a suffix of `s` is an infix of `s`. */
  lemma PrefixOfSuffix(s: string, i: nat, n: nat)
    requires i + n <= |s|
    ensures s[i..][..n] == s[i..i + n]
  {
  }

  /** What is whitespace past `n` in a suffix `t` of `s` is whitespace in `s`. */
  lemma TailOfSuffix(s: string, t: string, n: nat)
    requires |t| <= |s| && t == s[|s| - |t|..] && n <= |t|
    requires forall k :: n <= k < |t| ==> IsWhitespace(t[k])
    ensures forall k :: |s| - |t| + n <= k < |s| ==> IsWhitespace(s[k])
  {
    forall k | |s| - |t| + n <= k < |s|
      ensures IsWhitespace(s[k])
    {
      assert s[k] == t[k - (|s| - |t|)];
    }
  }

  /** `c.toLowerCase()` for the ASCII letters; every other character is kept. */
  function LowerAscii(c: char): char {
    if 'A' <= c <= 'Z' then (c as int - 'A' as int + 'a' as int) as char else c
  }

  /** `s.toLowerCase()`, on the ASCII letters only. */
  function ToLowerAscii(s: string): (r: string)
    ensures |r| == |s|
    ensures forall k :: 0 <= k < |s| ==> r[k] == LowerAscii(s[k])
  {
    if s == [] then [] else [LowerAscii(s[0])] + ToLowerAscii(s[1..])
  }

  /** `k` copies of `c`. */
  function Repeat(c: char, k: nat): (r: string)
    ensures |r| == k
    ensures forall i :: 0 <= i < k ==> r[i] == c
  {
    if k == 0 then [] else [c] + Repeat(c, k - 1)
  }

  /** `s.padStart(width, fill)` with a one-character fill: `s` itself when it is at
      least `width` long (it is never truncated), otherwise `s` preceded by enough
      copies of `fill` to reach `width`. */
  function PadStart(s: string, width: nat, fill: char): (r: string)
    ensures |r| == if |s| >= width then |s| else width
    ensures r[|r| - |s|..] == s
    ensures forall k :: 0 <= k < |r| - |s| ==> r[k] == fill
  {
    if |s| >= width then s else Repeat(fill, width - |s|) + s
  }

  /** `s.replace(from, to)` for one-character strings: only the FIRST occurrence of
      `from` is replaced, as JavaScript does when the pattern is a string. */
  function ReplaceFirst(s: string, from: char, to: char): (r: string)
    ensures |r| == |s|
    ensures forall k :: 0 <= k < |s| && k != IndexOf(s, from) ==> r[k] == s[k]
    ensures IndexOf(s, from) < |s| ==> r[IndexOf(s, from)] == to
  {
    var i := IndexOf(s, from);
    if i < |s| then s[i := to] else s
  }

  // ---------- digit strings ----------

  /** The digit character for `d` in bases up to 16 (lower-case, as `toString('hex')`). */
  function DigitChar(d: nat): char
    requires d < 16
  {
    if d < 10 then ('0' as int + d) as char else ('a' as int + d - 10) as char
  }

  /** A character of the class `[0-9a-f]`: a digit of `toString('hex')`. */
  predicate IsLowerHexDigit(c: char) {
    '0' <= c <= '9' || 'a' <= c <= 'f'
  }

  /** The value of a digit character; characters that are not digits count as 0. */
  function DigitValue(c: char): nat {
    if '0' <= c <= '9' then c as int - '0' as int
    else if 'a' <= c <= 'f' then c as int - 'a' as int + 10
    else 0
  }

  /** The most-significant-first digits of `n` in base `b`, without leading zeros:
      `String(n)` for `b == 10`. */
  function ToBase(n: nat, b: nat): (s: string)
    requires 2 <= b <= 16
    ensures |s| >= 1
    ensures s[0] != '0' || n == 0
    ensures b == 10 ==> forall k :: 0 <= k < |s| ==> IsDigit(s[k])
    ensures forall k :: 0 <= k < |s| ==> IsLowerHexDigit(s[k])
    decreases n
  {
    if n < b then [DigitChar(n)]
    else
      DivModFacts(n, b);
      ToBase(n / b, b) + [DigitChar(n % b)]
  }

  /** Euclidean division by a base, stated once for the digit functions. */
  lemma DivModFacts(n: nat, b: nat)
    requires 2 <= b <= n
    ensures 0 < n / b < n && n % b < b && n == n / b * b + n % b
  {
    var q, r := n / b, n % b;
    assert n == b * q + r;
    assert q >= 1 by {
      assert b * q + r == n && r < b <= n;
    }
    assert q < n by {
      assert b * q >= 2 * q;
    }
  }

  /** The value of a most-significant-first digit string in base `b`. */
  function FromBase(s: string, b: nat): nat {
    if s == [] then 0 else FromBase(s[..|s| - 1], b) * b + DigitValue(s[|s| - 1])
  }

  /** Reading back the digits of `n` gives `n`. */
  lemma {:induction false} FromBaseToBase(n: nat, b: nat)
    requires 2 <= b <= 16
    ensures FromBase(ToBase(n, b), b) == n
    decreases n
  {
    var s := ToBase(n, b);
    if n >= b {
      DivModFacts(n, b);
      FromBaseToBase(n / b, b);
      assert s[..|s| - 1] == ToBase(n / b, b);
    }
  }

  lemma {:induction false} FromBaseZeros(k: nat, b: nat)
    ensures FromBase(Repeat('0', k), b) == 0
  {
    if k > 0 {
      assert Repeat('0', k)[..k - 1] == Repeat('0', k - 1);
      FromBaseZeros(k - 1, b);
    }
  }

  /** Leading zeros do not change the value of a digit string. */
  lemma {:induction false} FromBaseLeadingZeros(k: nat, s: string, b: nat)
    ensures FromBase(Repeat('0', k) + s, b) == FromBase(s, b)
    decreases |s|
  {
    var z := Repeat('0', k);
    if s == [] {
      assert z + s == z;
      FromBaseZeros(k, b);
    } else {
      assert (z + s)[..|z + s| - 1] == z + s[..|s| - 1];
      FromBaseLeadingZeros(k, s[..|s| - 1], b);
    }
  }

  /** Padding the digits of `n` with zeros on the left keeps their value: the digit
      strings `padStart` produces still name `n`. */
  lemma PaddedDigitsValue(n: nat, b: nat, width: nat)
    requires 2 <= b <= 16
    ensures FromBase(PadStart(ToBase(n, b), width, '0'), b) == n
  {
    var s := ToBase(n, b);
    FromBaseToBase(n, b);
    if |s| < width {
      FromBaseLeadingZeros(width - |s|, s, b);
    }
  }
}
