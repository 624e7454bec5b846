/**
 * The few pieces of Kotlin's string library the app relies on: `trim()`,
 * `uppercase()` and `Char.isLetterOrDigit()`. A string is a sequence of
 * characters; each element stands for one UTF-16 code unit, so `|s|` is
 * Kotlin's `s.length`.
 */
module Text {

  /**
   * Kotlin's `Char.isWhitespace()` on the ASCII range, which `trim()` uses:
   * the control characters U+0009 to U+000D, the separators U+001C to
   * U+001F, and the space.
   */
  predicate IsWhitespace(c: char)
  {
    ('\t' <= c <= '\r') || (28 as char <= c <= ' ')
  }

  /** Drops leading whitespace. */
  function TrimStart(s: string): (r: string)
    ensures |r| <= |s| && r == s[|s| - |r|..]
    ensures r == [] || !IsWhitespace(r[0])
    ensures forall k :: 0 <= k < |s| - |r| ==> IsWhitespace(s[k])
  {
    if s != [] && IsWhitespace(s[0]) then TrimStart(s[1..]) else s
  }

  /** Drops trailing whitespace. */
  function TrimEnd(s: string): (r: string)
    ensures |r| <= |s| && r == s[..|r|]
    ensures r == [] || !IsWhitespace(r[|r| - 1])
    ensures forall k :: |r| <= k < |s| ==> IsWhitespace(s[k])
  {
    if s != [] && IsWhitespace(s[|s| - 1]) then TrimEnd(s[..|s| - 1]) else s
  }

  /** Kotlin's `trim()`: the input without whitespace at either end. */
  function Trim(s: string): (r: string)
    ensures |r| <= |s|
    ensures r == [] || (!IsWhitespace(r[0]) && !IsWhitespace(r[|r| - 1]))
  {
    TrimEnd(TrimStart(s))
  }

  /**
   * What `trim()` keeps is the contiguous part of the input that starts
   * where `trimStart` stops; everything before and after it is whitespace.
   */
  lemma {:induction false} TrimKeepsMiddle(s: string)
    ensures var i := |s| - |TrimStart(s)|; var r := Trim(s);
      i + |r| <= |s| && r == s[i..i + |r|] &&
      (forall k :: 0 <= k < i ==> IsWhitespace(s[k])) &&
      (forall k :: i + |r| <= k < |s| ==> IsWhitespace(s[k]))
  {
    var t := TrimStart(s);
    assert Trim(s) == TrimEnd(t);
    TrimIsSlice(s);
    TrimDropsOnlyTrailingWhitespace(s);
  }

  /** What `trimEnd` keeps of what `trimStart` keeps is a slice of the input. */
  lemma {:induction false} TrimIsSlice(s: string)
    ensures var t := TrimStart(s); var r := TrimEnd(t); var i := |s| - |t|;
      i + |r| <= |s| && r == s[i..i + |r|]
  {
    var t := TrimStart(s);
    var r := TrimEnd(t);
    var i := |s| - |t|;
    PrefixOfSuffix(s, i, |r|);
  }

  /** A prefix of a suffix is a middle slice. */
  lemma {:induction false} PrefixOfSuffix(s: string, i: nat, n: nat)
    requires i + n <= |s|
    ensures s[i..][..n] == s[i..i + n]
  {
  }

  /** Everything of the input after that slice is whitespace. */
  lemma {:induction false} TrimDropsOnlyTrailingWhitespace(s: string)
    ensures var t := TrimStart(s); var r := TrimEnd(t); var i := |s| - |t|;
      forall k :: i + |r| <= k < |s| ==> IsWhitespace(s[k])
  {
    var t := TrimStart(s);
    var r := TrimEnd(t);
    var i := |s| - |t|;
    assert t == s[i..];
    forall k | i + |r| <= k < |s|
      ensures IsWhitespace(s[k])
    {
      assert IsWhitespace(t[k - i]);
      assert s[k] == t[k - i];
    }
  }

  /** Trimming leaves nothing exactly when the input is all whitespace. */
  lemma {:induction false} TrimEmptyIff(s: string)
    ensures Trim(s) == [] <==> forall k :: 0 <= k < |s| ==> IsWhitespace(s[k])
  {
    var t := TrimStart(s);
    if t != [] {
      assert !IsWhitespace(s[|s| - |t|]);
    }
  }

  /** Kotlin's `Char.uppercaseChar()` on ASCII letters. */
  function UpperChar(c: char): (u: char)
    ensures 'a' <= c <= 'z' ==> 'A' <= u <= 'Z' && u as int == c as int - 32
    ensures !('a' <= c <= 'z') ==> u == c
  {
    if 'a' <= c <= 'z' then (c as int - 32) as char else c
  }

  /** Kotlin's `uppercase()`, character by character. */
  function Upper(s: string): (r: string)
    ensures |r| == |s|
    ensures forall k :: 0 <= k < |s| ==> r[k] == UpperChar(s[k])
  {
    if s == [] then [] else [UpperChar(s[0])] + Upper(s[1..])
  }

  /** Leading whitespace in front of a word that starts with a non-whitespace character is exactly what `trimStart` drops. */
  lemma {:induction false} TrimStartPadded(pre: string, s: string)
    requires forall k :: 0 <= k < |pre| ==> IsWhitespace(pre[k])
    requires s != [] && !IsWhitespace(s[0])
    ensures TrimStart(pre + s) == s
  {
    var x := pre + s;
    var r := TrimStart(x);
    var d := |x| - |r|;
    // Nothing past the padding is dropped ...
    assert !IsWhitespace(x[|pre|]);
    assert d <= |pre|;
    // ... and all of the padding is.
    assert forall k :: 0 <= k < |pre| ==> IsWhitespace(x[k]);
    assert !IsWhitespace(x[d]);
    assert r == x[|pre|..];
  }

  /** Trailing whitespace after a word that ends with a non-whitespace character is exactly what `trimEnd` drops. */
  lemma {:induction false} TrimEndPadded(s: string, suf: string)
    requires forall k :: 0 <= k < |suf| ==> IsWhitespace(suf[k])
    requires s != [] && !IsWhitespace(s[|s| - 1])
    ensures TrimEnd(s + suf) == s
  {
    var x := s + suf;
    var r := TrimEnd(x);
    assert !IsWhitespace(x[|s| - 1]);
    assert |r| >= |s|;
    assert forall k :: |s| <= k < |x| ==> IsWhitespace(x[k]);
    assert !IsWhitespace(x[|r| - 1]);
    assert r == x[..|s|];
  }

  /** `trim` removes exactly the whitespace padding around a word with non-whitespace ends. */
  lemma {:induction false} TrimPadded(pre: string, s: string, suf: string)
    requires forall k :: 0 <= k < |pre| ==> IsWhitespace(pre[k])
    requires forall k :: 0 <= k < |suf| ==> IsWhitespace(suf[k])
    requires s != [] && !IsWhitespace(s[0]) && !IsWhitespace(s[|s| - 1])
    ensures Trim(pre + s + suf) == s
  {
    assert pre + s + suf == pre + (s + suf);
    TrimStartPadded(pre, s + suf);
    TrimEndPadded(s, suf);
  }

  /** Uppercasing twice is uppercasing once. */
  lemma {:induction false} UpperIdempotent(s: string)
    ensures Upper(Upper(s)) == Upper(s)
  {
    assert forall k :: 0 <= k < |s| ==> Upper(Upper(s))[k] == Upper(s)[k];
  }

  /** Kotlin's `Char.isLetterOrDigit()` on ASCII. */
  predicate IsLetterOrDigit(c: char)
  {
    ('A' <= c <= 'Z') || ('a' <= c <= 'z') || ('0' <= c <= '9')
  }
}
