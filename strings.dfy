/**
 * The handful of Python string operations the converter relies on, at the
 * ASCII level: `sep.join`, `str.split` on one character, `str.strip`,
 * `str.lstrip(chars)`, `str.lower`, `str.title`, `"x" * n`, `in` on
 * substrings, and decimal formatting of a non-negative integer.
 */
module Strings {

  /** Python's `str.isspace` on the ASCII range: space, \t \n \v \f \r and \x1c-\x1f. */
  predicate IsSpace(c: char) {
    var k := c as int;
    k == 32 || 9 <= k <= 13 || 28 <= k <= 31
  }

  /** Concatenation regroups freely; stated once so callers need not rely on extensionality. */
  lemma AppendAssoc<T>(a: seq<T>, b: seq<T>, c: seq<T>)
    ensures (a + b) + c == a + (b + c)
  {
  }

  /** `sep.join(parts)`. */
  function Join(parts: seq<string>, sep: string): string {
    if |parts| == 0 then ""
    else if |parts| == 1 then parts[0]
    else parts[0] + sep + Join(parts[1..], sep)
  }

  lemma {:induction false} JoinAppend(parts: seq<string>, sep: string, last: string)
    requires |parts| > 0
    ensures Join(parts + [last], sep) == Join(parts, sep) + sep + last
  {
    if |parts| == 1 {
      assert parts + [last] == [parts[0], last];
    } else {
      assert (parts + [last])[1..] == parts[1..] + [last];
      JoinAppend(parts[1..], sep, last);
    }
  }

  /** `s.split(c)` for a one-character separator: never empty, `""` splits to `[""]`. */
  function Split(s: string, c: char): (r: seq<string>)
    ensures |r| >= 1
    ensures forall i, j :: 0 <= i < |r| && 0 <= j < |r[i]| ==> r[i][j] != c
  {
    if s == [] then [""]
    else
      var rest := Split(s[1..], c);
      if s[0] == c then [""] + rest else [[s[0]] + rest[0]] + rest[1..]
  }

  /** Splitting on a character and joining with it again gives back the string. */
  lemma {:induction false} JoinSplit(s: string, c: char)
    ensures Join(Split(s, c), [c]) == s
  {
    if s != [] {
      var rest := Split(s[1..], c);
      JoinSplit(s[1..], c);
      if s[0] == c {
        assert Split(s, c) == [""] + rest;
        assert ([""] + rest)[1..] == rest;
      } else {
        var r := Split(s, c);
        assert r == [[s[0]] + rest[0]] + rest[1..];
        if |rest| == 1 {
          assert r == [[s[0]] + rest[0]];
        } else {
          assert r[1..] == rest[1..];
          assert Join(rest, [c]) == rest[0] + [c] + Join(rest[1..], [c]);
        }
      }
    }
  }

  /** A string without the separator splits into itself alone. */
  lemma {:induction false} SplitNoSeparator(s: string, c: char)
    requires forall i :: 0 <= i < |s| ==> s[i] != c
    ensures Split(s, c) == [s]
  {
    if s != [] {
      SplitNoSeparator(s[1..], c);
      assert [s[0]] + s[1..] == s;
    }
  }

  /** `s.lstrip()`: drops leading whitespace and nothing else. */
  function LStrip(s: string): (r: string)
    ensures |r| <= |s| && r == s[|s| - |r|..]
    ensures r == [] || !IsSpace(r[0])
    ensures forall i :: 0 <= i < |s| - |r| ==> IsSpace(s[i])
  {
    if s != [] && IsSpace(s[0]) then LStrip(s[1..]) else s
  }

  /** `s.rstrip()`: drops trailing whitespace and nothing else. */
  function RStrip(s: string): (r: string)
    ensures |r| <= |s| && r == s[..|r|]
    ensures r == [] || !IsSpace(r[|r| - 1])
    ensures forall i :: |r| <= i < |s| ==> IsSpace(s[i])
  {
    if s != [] && IsSpace(s[|s| - 1]) then RStrip(s[..|s| - 1]) else s
  }

  /** `s.strip()`. */
  function Strip(s: string): string {
    RStrip(LStrip(s))
  }

  /** A stripped string starts and ends with a non-whitespace character. */
  lemma StripEnds(s: string)
    ensures var r := Strip(s);
      r == [] || (!IsSpace(r[0]) && !IsSpace(r[|r| - 1]))
  {
    var l := LStrip(s);
    var r := RStrip(l);
    if r != [] {
      assert r[0] == l[0];
    }
  }

  /** `s.strip()` is empty exactly when every character of `s` is whitespace. */
  lemma StripEmpty(s: string)
    ensures Strip(s) == [] <==> forall i :: 0 <= i < |s| ==> IsSpace(s[i])
  {
    var l := LStrip(s);
    if Strip(s) == [] {
      // `l` starts with a non-space if anything, and is all spaces, so it is empty.
      assert |l| == 0;
    } else {
      assert !IsSpace(Strip(s)[0]);
    }
  }

  /** `s.lstrip(chars)`: drops the leading characters that belong to `chars`. */
  function LStripChars(s: string, chars: set<char>): (r: string)
    ensures |r| <= |s| && r == s[|s| - |r|..]
    ensures r == [] || r[0] !in chars
    ensures forall i :: 0 <= i < |s| - |r| ==> s[i] in chars
  {
    if s != [] && s[0] in chars then LStripChars(s[1..], chars) else s
  }

  /** Strips `c` from both ends, as `s.strip(c)`. */
  function StripChar(s: string, c: char): string {
    if s != [] && s[0] == c then StripChar(s[1..], c)
    else if s != [] && s[|s| - 1] == c then StripChar(s[..|s| - 1], c)
    else s
  }

  /** `s[i..j]` is what remains of `s` once the characters before `i` and from `j` on, all `c`, are cut off. */
  predicate CutOnly(s: string, c: char, i: int, j: int) {
    && 0 <= i <= j <= |s|
    && (forall k :: 0 <= k < i ==> s[k] == c)
    && (forall k :: j <= k < |s| ==> s[k] == c)
  }

  /**
   * `s.strip(c)` is a contiguous part of `s` that neither starts nor ends
   * with `c`, and everything cut from either end is `c`.
   */
  lemma {:induction false} StripCharShape(s: string, c: char)
    ensures var r := StripChar(s, c);
      && (r == [] || (r[0] != c && r[|r| - 1] != c))
      && exists i, j :: CutOnly(s, c, i, j) && r == s[i..j]
  {
    var r := StripChar(s, c);
    if s != [] && s[0] == c {
      StripCharShape(s[1..], c);
      var i, j :| CutOnly(s[1..], c, i, j) && r == s[1..][i..j];
      assert r == s[i + 1..j + 1];
      assert CutOnly(s, c, i + 1, j + 1) by {
        forall k | 0 <= k < i + 1 ensures s[k] == c {
          if k > 0 { assert s[k] == s[1..][k - 1]; }
        }
        forall k | j + 1 <= k < |s| ensures s[k] == c {
          assert s[k] == s[1..][k - 1];
        }
      }
    } else if s != [] && s[|s| - 1] == c {
      StripCharShape(s[..|s| - 1], c);
      var i, j :| CutOnly(s[..|s| - 1], c, i, j) && r == s[..|s| - 1][i..j];
      assert r == s[i..j];
      assert CutOnly(s, c, i, j) by {
        forall k | j <= k < |s| ensures s[k] == c {
          if k < |s| - 1 { assert s[k] == s[..|s| - 1][k]; }
        }
      }
    } else {
      assert r == s[0..|s|];
      assert CutOnly(s, c, 0, |s|);
    }
  }

  predicate IsUpper(c: char) { 'A' <= c <= 'Z' }
  predicate IsLower(c: char) { 'a' <= c <= 'z' }
  predicate IsLetter(c: char) { IsUpper(c) || IsLower(c) }
  predicate IsDigit(c: char) { '0' <= c <= '9' }

  /** Position in the alphabet, counted from 0 for `a` and `A`. */
  function LetterIndex(c: char): int {
    if IsUpper(c) then c as int - 'A' as int else c as int - 'a' as int
  }

  /** `c.lower()`: a capital becomes the same letter in lower case; anything else is kept. */
  function LowerChar(c: char): (d: char)
    ensures !IsUpper(d)
    ensures IsLetter(c) <==> IsLetter(d)
    ensures IsUpper(c) ==> IsLower(d) && LetterIndex(d) == LetterIndex(c)
    ensures !IsUpper(c) ==> d == c
  {
    if IsUpper(c) then (c as int + 32) as char else c
  }

  /** `c.upper()`: a lower-case letter becomes the same letter as a capital; anything else is kept. */
  function UpperChar(c: char): (d: char)
    ensures !IsLower(d)
    ensures IsLetter(c) <==> IsLetter(d)
    ensures IsLower(c) ==> IsUpper(d) && LetterIndex(d) == LetterIndex(c)
    ensures !IsLower(c) ==> d == c
  {
    if IsLower(c) then (c as int - 32) as char else c
  }

  /** Changing the case of a letter one way and back gives the letter again. */
  lemma CaseRoundTrip(c: char)
    ensures IsUpper(c) ==> UpperChar(LowerChar(c)) == c
    ensures IsLower(c) ==> LowerChar(UpperChar(c)) == c
  {
  }

  /** `s.lower()` on ASCII letters. */
  function Lower(s: string): (r: string)
    ensures |r| == |s|
    ensures forall i :: 0 <= i < |r| ==> r[i] == LowerChar(s[i])
  {
    seq(|s|, i requires 0 <= i < |s| => LowerChar(s[i]))
  }

  /**
   * `s.title()` on ASCII letters: a letter is upper-cased when the character
   * before it is not a letter, and lower-cased otherwise.
   */
  function TitleFrom(s: string, prevCased: bool): (r: string)
    ensures |r| == |s|
    ensures forall i :: 0 <= i < |s| ==>
      r[i] == TitleChar(s[i], if i == 0 then prevCased else IsLetter(s[i - 1]))
  {
    if s == [] then []
    else
      var rest := TitleFrom(s[1..], IsLetter(s[0]));
      var r := [TitleChar(s[0], prevCased)] + rest;
      assert forall i :: 1 <= i < |s| ==> r[i] == rest[i - 1] && s[1..][i - 1] == s[i];
      r
  }

  /**
   * One character of `title()`, given whether the character before it is a
   * letter: a letter that starts a word is upper-cased, a letter inside a
   * word lower-cased, and any other character kept.
   */
  function TitleChar(c: char, afterLetter: bool): char {
    if !IsLetter(c) then c else if afterLetter then LowerChar(c) else UpperChar(c)
  }

  function Title(s: string): string {
    TitleFrom(s, false)
  }

  /**
   * `[x] * n`, and `c * n` for a one-character string: `n` copies of `x`; a
   * count below one gives the empty sequence.
   */
  function Repeat<T>(x: T, n: int): (r: seq<T>)
    ensures |r| == if n < 0 then 0 else n
    ensures forall i :: 0 <= i < |r| ==> r[i] == x
    decreases n
  {
    if n <= 0 then [] else [x] + Repeat(x, n - 1)
  }

  function DigitChar(d: nat): char
    requires d < 10
  {
    ('0' as int + d) as char
  }

  /** The number a string of decimal digits spells, most significant digit first. */
  function DigitsValue(s: string): nat
    requires forall i :: 0 <= i < |s| ==> IsDigit(s[i])
  {
    if s == [] then 0
    else
      assert IsDigit(s[|s| - 1]);
      10 * DigitsValue(s[..|s| - 1]) + (s[|s| - 1] as int - '0' as int)
  }

  /** `str(n)` for a non-negative integer: the decimal digits of `n`, without leading zeros. */
  function NatToString(n: nat): (r: string)
    ensures |r| >= 1
    ensures forall i :: 0 <= i < |r| ==> IsDigit(r[i])
    ensures DigitsValue(r) == n
    ensures r[0] == '0' ==> r == "0"
  {
    if n < 10 then [DigitChar(n)]
    else
      var high := NatToString(n / 10);
      var r := high + [DigitChar(n % 10)];
      assert r[..|r| - 1] == high;
      r
  }

  /** `sub in s`. */
  predicate Contains(s: string, sub: string)
    decreases |s|
  {
    if |s| < |sub| then false
    else s[..|sub|] == sub || (s != [] && Contains(s[1..], sub))
  }

  /** `sub` occurs in `s` starting at index `i`. */
  predicate OccursAt(s: string, sub: string, i: int) {
    0 <= i && i + |sub| <= |s| && s[i..i + |sub|] == sub
  }

  /**
   * `s.split(sep)[0]`: the part of `s` before the first occurrence of `sep`,
   * or all of `s` when `sep` does not occur.
   */
  function BeforeFirst(s: string, sep: string): (r: string)
    requires |sep| > 0
    ensures |r| <= |s| && r == s[..|r|]
    ensures !Contains(r, sep)
    ensures !Contains(s, sep) ==> r == s
    ensures Contains(s, sep) ==> OccursAt(s, sep, |r|)
    ensures forall i :: 0 <= i < |r| ==> !OccursAt(s, sep, i)
    decreases |s|
  {
    if |s| < |sep| then
      NotContainsShort(s, sep);
      s
    else if s[..|sep|] == sep then ""
    else
      var rest := BeforeFirst(s[1..], sep);
      var r := [s[0]] + rest;
      PrefixNotContains(s, r, sep);
      OccursShift(s, sep, |rest|);
      forall i | 0 <= i < |r| ensures !OccursAt(s, sep, i) {
        if i > 0 { OccursShift(s, sep, i - 1); }
      }
      r
  }

  /** An occurrence in `s[1..]` is an occurrence in `s` one place later. */
  lemma OccursShift(s: string, sub: string, i: nat)
    requires |s| > 0
    ensures OccursAt(s[1..], sub, i) <==> OccursAt(s, sub, i + 1)
  {
    if i + |sub| <= |s| - 1 {
      assert s[1..][i..i + |sub|] == s[i + 1..i + 1 + |sub|];
    }
  }

  lemma NotContainsShort(s: string, sub: string)
    requires |s| < |sub|
    ensures !Contains(s, sub)
  {
  }

  /**
   * Growing a string without the separator by one character in front keeps
   * it free of the separator, as long as the original string does not start
   * with the separator at that position.
   */
  lemma {:induction false} PrefixNotContains(s: string, r: string, sep: string)
    requires |sep| > 0 && |s| >= |sep| && s[..|sep|] != sep
    requires |r| >= 1 && |r| <= |s| && r == s[..|r|]
    requires !Contains(r[1..], sep)
    ensures !Contains(r, sep)
  {
    if |r| >= |sep| {
      assert r[..|sep|] == s[..|sep|];
    }
  }

  /** A substring of a string without `sub` does not contain `sub` either. */
  lemma {:induction false} ContainsSubstring(s: string, i: nat, j: nat, sub: string)
    requires i <= j <= |s|
    requires Contains(s[i..j], sub)
    ensures Contains(s, sub)
    decreases j - i
  {
    var t := s[i..j];
    if t[..|sub|] == sub {
      ContainsAt(s, i, sub);
    } else {
      assert t[1..] == s[i + 1..j];
      ContainsSubstring(s, i + 1, j, sub);
    }
  }

  lemma {:induction false} ContainsAt(s: string, i: nat, sub: string)
    requires i + |sub| <= |s| && s[i..i + |sub|] == sub
    ensures Contains(s, sub)
    decreases i
  {
    if i > 0 {
      assert s[1..][i - 1..i - 1 + |sub|] == s[i..i + |sub|];
      ContainsAt(s[1..], i - 1, sub);
    } else {
      assert s[..|sub|] == s[i..i + |sub|];
    }
  }
}
