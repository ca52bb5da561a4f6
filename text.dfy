/**
 * The JavaScript notion of white space, shared by `String.prototype.trim`
 * and the regular-expression class `\s`: the WhiteSpace and LineTerminator
 * code points of ECMAScript.
 */
module Text {

  predicate IsSpace(c: char)
  {
    // TAB, LF, VT, FF, CR
    || ('\U{0009}' <= c <= '\U{000D}')
    // SPACE, NO-BREAK SPACE, OGHAM SPACE MARK
    || c == '\U{0020}' || c == '\U{00A0}' || c == '\U{1680}'
    // EN QUAD .. HAIR SPACE
    || ('\U{2000}' <= c <= '\U{200A}')
    // LINE SEPARATOR, PARAGRAPH SEPARATOR, NARROW NO-BREAK SPACE, MEDIUM MATHEMATICAL SPACE
    || c == '\U{2028}' || c == '\U{2029}' || c == '\U{202F}' || c == '\U{205F}'
    // IDEOGRAPHIC SPACE, ZERO WIDTH NO-BREAK SPACE
    || c == '\U{3000}' || c == '\U{FEFF}'
  }

  /** No white space anywhere in `s`. */
  predicate NoSpace(s: string)
  {
    forall k :: 0 <= k < |s| ==> !IsSpace(s[k])
  }

  /** Only white space in `s` (vacuously true of the empty string). */
  predicate AllSpace(s: string)
  {
    forall k :: 0 <= k < |s| ==> IsSpace(s[k])
  }

  /** `s` with its leading white space removed. */
  function TrimStart(s: string): (r: string)
    ensures |r| <= |s| && r == s[|s| - |r|..]
    ensures AllSpace(s[..|s| - |r|])
    ensures r == [] || !IsSpace(r[0])
  {
    if s == [] || !IsSpace(s[0]) then s
    else
      var rest := TrimStart(s[1..]);
      assert s[..|s| - |rest|] == [s[0]] + s[1..][..|s[1..]| - |rest|];
      rest
  }

  /** `s` with its trailing white space removed. */
  function TrimEnd(s: string): (r: string)
    ensures |r| <= |s| && r == s[..|r|]
    ensures AllSpace(s[|r|..])
    ensures r == [] || !IsSpace(r[|r| - 1])
  {
    if s == [] || !IsSpace(s[|s| - 1]) then s
    else
      var rest := TrimEnd(s[..|s| - 1]);
      assert s[|rest|..] == s[..|s| - 1][|rest|..] + [s[|s| - 1]];
      rest
  }

  /** `r` occurs in `s` starting at index `i`. */
  predicate InfixAt(r: string, s: string, i: nat)
  {
    i + |r| <= |s| && r == s[i..i + |r|]
  }

  /** The length of the white space that `s` starts with. */
  function LeadingSpace(s: string): (n: nat)
    ensures n <= |s| && AllSpace(s[..n])
    ensures n == |s| || !IsSpace(s[n])
  {
    |s| - |TrimStart(s)|
  }

  /** `s.trim()`: the middle of `s` between its leading and trailing white
      space. It starts and ends with something other than white space, and
      it is empty exactly when `s` is all white space. */
  function Trim(s: string): (r: string)
    ensures InfixAt(r, s, LeadingSpace(s))
    ensures AllSpace(s[LeadingSpace(s) + |r|..])
    ensures r == [] || (!IsSpace(r[0]) && !IsSpace(r[|r| - 1]))
    ensures r == [] <==> AllSpace(s)
  {
    TrimParts(s);
    TrimEnd(TrimStart(s))
  }

  /** The two passes leave the part of `s` after its leading white space
      and before its trailing white space. */
  lemma TrimParts(s: string)
    ensures var r := TrimEnd(TrimStart(s));
            && InfixAt(r, s, LeadingSpace(s))
            && AllSpace(s[LeadingSpace(s) + |r|..])
            && (r == [] || !IsSpace(r[0]))
            && (r == [] <==> AllSpace(s))
  {
    var front := TrimStart(s);
    var r := TrimEnd(front);
    var i := |s| - |front|;
    InfixOfSuffix(s, front, r, i);
    SpaceAfterInfix(s, front, r, i);
    SpaceAround(s, front, r, i);
  }

  /** A prefix of the suffix from `i` occurs in `s` at `i`. */
  lemma InfixOfSuffix(s: string, front: string, r: string, i: nat)
    requires i <= |s| && front == s[i..] && |r| <= |front| && r == front[..|r|]
    ensures InfixAt(r, s, i)
  {
    assert s[i..i + |r|] == s[i..][..|r|];
  }

  /** When `front`, the part of `s` after white space, starts with
      something else, so does its prefix `r`; and `r` is empty exactly when
      `s` is all white space, given that `front` is white space after `r`. */
  lemma SpaceAround(s: string, front: string, r: string, i: nat)
    requires i <= |s| && front == s[i..] && AllSpace(s[..i])
    requires front == [] || !IsSpace(front[0])
    requires |r| <= |front| && r == front[..|r|] && AllSpace(front[|r|..])
    ensures r == [] || !IsSpace(r[0])
    ensures r == [] <==> AllSpace(s)
  {
    if r == [] {
      if front != [] {
        assert false;
      }
      forall k | 0 <= k < |s|
        ensures IsSpace(s[k])
      {
        assert s[k] == s[..i][k];
      }
    } else {
      assert s[i] == r[0];
    }
  }

  /** White space after `r` in `front` is white space after `r` in `s`. */
  lemma SpaceAfterInfix(s: string, front: string, r: string, i: nat)
    requires i <= |s| && front == s[i..] && |r| <= |front| && AllSpace(front[|r|..])
    ensures AllSpace(s[i + |r|..])
  {
    var tail := s[i + |r|..];
    forall k | 0 <= k < |tail|
      ensures IsSpace(tail[k])
    {
      assert tail[k] == front[|r|..][k];
    }
  }

  /** JavaScript's `length`: strings are sequences of UTF-16 code units,
      so a character outside the Basic Multilingual Plane counts twice. */
  function Utf16Length(s: string): (n: nat)
    ensures |s| <= n <= 2 * |s|
  {
    if s == [] then 0 else (if s[0] as int < 0x10000 then 1 else 2) + Utf16Length(s[1..])
  }
}
