/** The few JavaScript string operations the front end relies on:
    `startsWith`, `includes`, `trim`, number-to-decimal conversion,
    `padStart(2, '0')` and `join('\n')`. */
module Strings {

  /** `s.startsWith(p)`. */
  predicate StartsWith(s: string, p: string)
  {
    |p| <= |s| && s[..|p|] == p
  }

  /** `s.includes(sub)`: `sub` occurs in `s` at some offset. */
  predicate Contains(s: string, sub: string)
    decreases |s|
  {
    StartsWith(s, sub) || (|s| > 0 && Contains(s[1..], sub))
  }

  /** A string that starts with `p` contains it. */
  lemma StartsWithContains(s: string, p: string)
    requires StartsWith(s, p)
    ensures Contains(s, p)
  {
  }

  /** An occurrence of a non-empty `sub` puts the first character of `sub`
      somewhere in `s`. */
  lemma {:induction false} ContainsFirstChar(s: string, sub: string)
    requires |sub| > 0 && Contains(s, sub)
    ensures exists i :: 0 <= i < |s| && s[i] == sub[0]
    decreases |s|
  {
    if StartsWith(s, sub) {
      assert s[0] == sub[0];
    } else {
      ContainsFirstChar(s[1..], sub);
      var i :| 0 <= i < |s| - 1 && s[1..][i] == sub[0];
      assert s[i + 1] == sub[0];
    }
  }

  /** A string whose characters all fail a test cannot contain a string
      whose first character passes it; here the test is "is a decimal
      digit". */
  lemma {:induction false} DigitsExclude(s: string, sub: string)
    requires forall i :: 0 <= i < |s| ==> '0' <= s[i] <= '9'
    requires |sub| > 0 && !('0' <= sub[0] <= '9')
    ensures !Contains(s, sub)
    decreases |s|
  {
    if |s| > 0 {
      assert s[0] != sub[0];
      DigitsExclude(s[1..], sub);
    }
  }

  /** The characters JavaScript's `String.prototype.trim` removes: the
      ECMAScript WhiteSpace and LineTerminator code points. */
  predicate IsSpace(c: char)
  {
    || c == ' ' || c == '\t' || c == '\n' || c == '\r'
    || c == '\U{B}' || c == '\U{C}' || c == '\U{A0}' || c == '\U{1680}'
    || ('\U{2000}' <= c <= '\U{200A}')
    || c == '\U{2028}' || c == '\U{2029}' || c == '\U{202F}' || c == '\U{205F}'
    || c == '\U{3000}' || c == '\U{FEFF}'
  }

  /** Number of leading white-space characters of `s`. */
  function LeadingSpace(s: string): (n: nat)
    ensures n <= |s|
    ensures forall i :: 0 <= i < n ==> IsSpace(s[i])
    ensures n < |s| ==> !IsSpace(s[n])
    decreases |s|
  {
    if |s| > 0 && IsSpace(s[0]) then 1 + LeadingSpace(s[1..]) else 0
  }

  /** Number of trailing white-space characters of `s`. */
  function TrailingSpace(s: string): (n: nat)
    ensures n <= |s|
    ensures forall i :: |s| - n <= i < |s| ==> IsSpace(s[i])
    ensures n < |s| ==> !IsSpace(s[|s| - 1 - n])
    decreases |s|
  {
    if |s| > 0 && IsSpace(s[|s| - 1]) then 1 + TrailingSpace(s[..|s| - 1]) else 0
  }

  /** `s.trim()`: the slice of `s` that is left once the white space at both
      ends is cut off; all of the cut-off characters are white space and the
      result neither starts nor ends with white space. */
  function Trim(s: string): (r: string)
    ensures exists i, j :: 0 <= i <= j <= |s| && r == s[i..j]
                           && (forall k :: 0 <= k < i ==> IsSpace(s[k]))
                           && (forall k :: j <= k < |s| ==> IsSpace(s[k]))
    ensures r != [] ==> !IsSpace(r[0]) && !IsSpace(r[|r| - 1])
    ensures (forall k :: 0 <= k < |s| ==> IsSpace(s[k])) <==> r == []
  {
    var i := LeadingSpace(s);
    if i == |s| then
      assert s[i..i] == [];
      assert 0 <= i <= i <= |s|;
      []
    else
      var u := s[i..];
      var t := TrailingSpace(u);
      assert t < |u| by {
        assert !IsSpace(u[0]);
      }
      var r := s[i..|s| - t];
      assert r[0] == s[i];
      assert r[|r| - 1] == u[|u| - 1 - t];
      assert forall k :: |s| - t <= k < |s| ==> s[k] == u[k - i];
      assert !IsSpace(s[i]);
      assert 0 <= i <= |s| - t <= |s| && r == s[i..|s| - t];
      r
  }

  /** Trimming does nothing to a string that has no white space at its ends. */
  lemma {:induction false} TrimIdempotent(s: string)
    ensures Trim(Trim(s)) == Trim(s)
  {
    var r := Trim(s);
    if r != [] {
      assert LeadingSpace(r) == 0;
      assert TrailingSpace(r) == 0;
      assert r[0..|r| - 0] == r;
    }
  }

  predicate IsDigit(c: char)
  {
    '0' <= c <= '9'
  }

  function DigitChar(d: nat): (c: char)
    requires d < 10
    ensures IsDigit(c)
  {
    (('0' as int) + d) as char
  }

  function DigitValue(c: char): (d: nat)
    requires IsDigit(c)
    ensures d < 10
  {
    (c as int) - ('0' as int)
  }

  predicate AllDigits(s: string)
  {
    forall i :: 0 <= i < |s| ==> IsDigit(s[i])
  }

  /** The decimal value of a digit string. */
  function DecimalValue(s: string): nat
    requires AllDigits(s)
  {
    if s == [] then 0 else DecimalValue(s[..|s| - 1]) * 10 + DigitValue(s[|s| - 1])
  }

  /** A non-negative integer written in decimal, as JavaScript's template
      strings and `toString()` print it. */
  function NatToString(n: nat): (r: string)
    ensures |r| > 0 && AllDigits(r)
    ensures r[0] == '0' ==> n == 0 && r == "0"
    decreases n
  {
    if n < 10 then [DigitChar(n)] else NatToString(n / 10) + [DigitChar(n % 10)]
  }

  /** Reading back what NatToString printed gives the number. */
  lemma {:induction false} NatToStringRoundTrip(n: nat)
    ensures DecimalValue(NatToString(n)) == n
    decreases n
  {
    var r := NatToString(n);
    if n >= 10 {
      NatToStringRoundTrip(n / 10);
      assert r[..|r| - 1] == NatToString(n / 10);
    }
  }

  /** Different numbers print differently. */
  lemma NatToStringInjective(m: nat, n: nat)
    requires NatToString(m) == NatToString(n)
    ensures m == n
  {
    NatToStringRoundTrip(m);
    NatToStringRoundTrip(n);
  }

  /** `s.padStart(2, '0')`. */
  function PadTwo(s: string): (r: string)
    ensures |s| >= 2 ==> r == s
    ensures |s| < 2 ==> |r| == 2 && r[2 - |s|..] == s
    ensures |s| < 2 ==> forall i :: 0 <= i < 2 - |s| ==> r[i] == '0'
  {
    if |s| == 0 then "00" else if |s| == 1 then "0" + s else s
  }

  /** `parts.join('\n')`: empty only for no parts or one empty part. */
  function JoinLines(parts: seq<string>): (r: string)
    ensures r == "" <==> |parts| == 0 || (|parts| == 1 && parts[0] == "")
  {
    if |parts| == 0 then "" else if |parts| == 1 then parts[0] else JoinLines(parts[..|parts| - 1]) + "\n" + parts[|parts| - 1]
  }

  /** A string's JavaScript `length`: the number of UTF-16 code units, one
      for a character of the Basic Multilingual Plane and two (a surrogate
      pair) for any character above it. */
  function Utf16Length(s: string): (r: nat)
    ensures |s| <= r <= 2 * |s|
    ensures r == |s| <==> forall i :: 0 <= i < |s| ==> s[i] as int <= 0xFFFF
  {
    if |s| == 0 then 0
    else
      assert forall i :: 0 <= i < |s| - 1 ==> s[1..][i] == s[i + 1];
      (if s[0] as int <= 0xFFFF then 1 else 2) + Utf16Length(s[1..])
  }

  /** Lengths in code units add up over concatenation. */
  lemma {:induction false} Utf16LengthAppend(a: string, b: string)
    ensures Utf16Length(a + b) == Utf16Length(a) + Utf16Length(b)
    decreases |a|
  {
    if |a| > 0 {
      assert (a + b)[1..] == a[1..] + b;
      Utf16LengthAppend(a[1..], b);
    } else {
      assert a + b == b;
    }
  }

  /** Joining two non-empty lists puts one newline between their joins. */
  lemma {:induction false} JoinLinesAppend(a: seq<string>, b: seq<string>)
    requires |a| > 0 && |b| > 0
    ensures JoinLines(a + b) == JoinLines(a) + "\n" + JoinLines(b)
    decreases |b|
  {
    var front := b[..|b| - 1];
    assert (a + b)[..|a + b| - 1] == a + front;
    if |b| > 1 {
      JoinLinesAppend(a, front);
    } else {
      assert a + front == a;
    }
  }
}
