/**
 * String helpers shared by the screens and the controllers: the two `trim`
 * operations (JavaScript's and Java's strip different characters), the
 * blank test the forms use, `contains`, and the decimal rendering of
 * numeric ids (`id.toString()` in JavaScript, `Long.toString` in Java).
 */
module Text {

  /** Which language's `trim` is meant. */
  datatype Whitespace = JsWhitespace | JavaWhitespace

  /**
   * JavaScript's `String.prototype.trim` strips the ECMAScript WhiteSpace and
   * LineTerminator characters; Java's `String.trim` strips every code unit at
   * or below U+0020.
   */
  predicate IsSpace(w: Whitespace, c: char) {
    match w
    case JavaWhitespace => c <= ' '
    case JsWhitespace => c in JsSpaces
  }

  /** The characters JavaScript's `trim` strips. */
  const JsSpaces: set<char> := {
    '\t', '\n', '\U{000B}', '\U{000C}', '\r', ' ', '\U{00A0}', '\U{1680}',
    '\U{2000}', '\U{2001}', '\U{2002}', '\U{2003}', '\U{2004}', '\U{2005}',
    '\U{2006}', '\U{2007}', '\U{2008}', '\U{2009}', '\U{200A}',
    '\U{2028}', '\U{2029}', '\U{202F}', '\U{205F}', '\U{3000}', '\U{FEFF}'}

  /** Every character of `s` is stripped by `trim`. */
  predicate AllSpace(w: Whitespace, s: string) {
    forall i :: 0 <= i < |s| ==> IsSpace(w, s[i])
  }

  /** How many leading characters `trim` strips: the length of the longest all-space prefix. */
  function Lead(w: Whitespace, s: string): (n: nat)
    ensures n <= |s|
    ensures forall k :: 0 <= k < n ==> IsSpace(w, s[k])
    ensures n < |s| ==> !IsSpace(w, s[n])
  {
    if s == [] || !IsSpace(w, s[0]) then 0 else 1 + Lead(w, s[1..])
  }

  /** How many trailing characters `trim` strips: the length of the longest all-space suffix. */
  function Tail(w: Whitespace, s: string): (n: nat)
    ensures n <= |s|
    ensures forall k :: |s| - n <= k < |s| ==> IsSpace(w, s[k])
    ensures n < |s| ==> !IsSpace(w, s[|s| - 1 - n])
  {
    if s == [] || !IsSpace(w, s[|s| - 1]) then 0 else 1 + Tail(w, s[..|s| - 1])
  }

  /** `trim()`: the leading whitespace is dropped, then the trailing whitespace of what is left. */
  function Trim(w: Whitespace, s: string): string {
    var rest := s[Lead(w, s)..];
    rest[..|rest| - Tail(w, rest)]
  }

  /** `trim` keeps a contiguous slice and drops only whitespace, from the two ends; what it keeps starts and ends with a non-space. */
  lemma TrimIsSlice(w: Whitespace, s: string)
    ensures Lead(w, s) + |Trim(w, s)| <= |s|
    ensures Trim(w, s) == s[Lead(w, s)..Lead(w, s) + |Trim(w, s)|]
    ensures forall k :: 0 <= k < Lead(w, s) ==> IsSpace(w, s[k])
    ensures forall k :: Lead(w, s) + |Trim(w, s)| <= k < |s| ==> IsSpace(w, s[k])
    ensures Trim(w, s) != [] ==> !IsSpace(w, Trim(w, s)[0]) && !IsSpace(w, Trim(w, s)[|Trim(w, s)| - 1])
  {
    TrimBounds(w, s);
    SuffixAfterLead(w, s, Lead(w, s), |Trim(w, s)|);
    TrimEnds(w, s);
  }

  /** The kept slice starts right after the leading whitespace. */
  lemma TrimBounds(w: Whitespace, s: string)
    ensures Lead(w, s) + |Trim(w, s)| <= |s|
    ensures Trim(w, s) == s[Lead(w, s)..Lead(w, s) + |Trim(w, s)|]
    ensures |Trim(w, s)| == |s[Lead(w, s)..]| - Tail(w, s[Lead(w, s)..])
  {
  }

  /** The kept slice neither starts nor ends with whitespace. */
  lemma TrimEnds(w: Whitespace, s: string)
    ensures Trim(w, s) != [] ==> !IsSpace(w, Trim(w, s)[0]) && !IsSpace(w, Trim(w, s)[|Trim(w, s)| - 1])
  {
    var i := Lead(w, s);
    var rest := s[i..];
    var t := Trim(w, s);
    if t != [] {
      assert t[0] == rest[0] == s[i];
      assert t[|t| - 1] == rest[|rest| - 1 - Tail(w, rest)];
    }
  }

  /** What follows the kept slice lies in the stripped suffix of `s[i..]`. */
  lemma SuffixAfterLead(w: Whitespace, s: string, i: nat, n: nat)
    requires i <= |s| && n == |s[i..]| - Tail(w, s[i..])
    ensures forall k :: i + n <= k < |s| ==> IsSpace(w, s[k])
  {
    var rest := s[i..];
    forall k | i + n <= k < |s|
      ensures IsSpace(w, s[k])
    {
      assert rest[k - i] == s[k];
    }
  }

  /** `x.trim()` is empty exactly when every character of `x` is whitespace. */
  lemma TrimEmptyIffAllSpace(w: Whitespace, s: string)
    ensures Trim(w, s) == [] <==> AllSpace(w, s)
  {
    TrimIsSlice(w, s);
    var i := Lead(w, s);
    if Trim(w, s) == [] {
      forall k | 0 <= k < |s|
        ensures IsSpace(w, s[k])
      {
        assert k < i || i <= k;
      }
    } else {
      assert !IsSpace(w, s[i]);
    }
  }

  /** Trimming twice is the same as trimming once. */
  lemma TrimIdempotent(w: Whitespace, s: string)
    ensures Trim(w, Trim(w, s)) == Trim(w, s)
  {
    var t := Trim(w, s);
    TrimIsSlice(w, s);
    assert Lead(w, t) == 0;
    assert t[0..] == t;
    assert Tail(w, t) == 0;
  }

  /** `s.contains(c)` / `s.includes(c)` for a one-character needle. */
  predicate Contains(s: string, c: char) {
    exists i :: 0 <= i < |s| && s[i] == c
  }

  /** Trimming neither adds nor removes a character that is not whitespace. */
  lemma TrimKeepsNonSpace(w: Whitespace, s: string, c: char)
    requires !IsSpace(w, c)
    ensures Contains(s, c) <==> Contains(Trim(w, s), c)
  {
    TrimIsSlice(w, s);
    var i := Lead(w, s);
    var n := |Trim(w, s)|;
    forall k | 0 <= k < i || i + n <= k < |s|
      ensures s[k] != c
    {
      assert IsSpace(w, s[k]);
    }
    SliceKeepsChar(s, i, i + n, c);
  }

  /** A character found nowhere outside `s[lo..hi]` is in `s` exactly when it is in that slice. */
  lemma SliceKeepsChar(s: string, lo: nat, hi: nat, c: char)
    requires lo <= hi <= |s|
    requires forall k :: 0 <= k < lo || hi <= k < |s| ==> s[k] != c
    ensures Contains(s, c) <==> Contains(s[lo..hi], c)
  {
    if Contains(s, c) {
      var k :| 0 <= k < |s| && s[k] == c;
      assert s[lo..hi][k - lo] == c;
    }
    if Contains(s[lo..hi], c) {
      var k :| 0 <= k < hi - lo && s[lo..hi][k] == c;
      assert s[lo + k] == c;
    }
  }

  function DigitChar(d: nat): (c: char)
    requires d < 10
    ensures '0' <= c <= '9'
  {
    ['0', '1', '2', '3', '4', '5', '6', '7', '8', '9'][d]
  }

  function DigitValue(c: char): nat
    requires '0' <= c <= '9'
  {
    (c as int - '0' as int) as nat
  }

  /** Decimal rendering of a non-negative id, as `toString()` produces it. */
  function NatToString(n: nat): (r: string)
    ensures |r| >= 1
    ensures forall i :: 0 <= i < |r| ==> '0' <= r[i] <= '9'
    ensures |r| > 1 ==> r[0] != '0'
  {
    if n < 10 then [DigitChar(n)] else NatToString(n / 10) + [DigitChar(n % 10)]
  }

  /** Reading the digits back gives the number. */
  function ParseDigits(s: string): nat
    requires forall i :: 0 <= i < |s| ==> '0' <= s[i] <= '9'
  {
    if s == [] then 0 else ParseDigits(s[..|s| - 1]) * 10 + DigitValue(s[|s| - 1])
  }

  lemma {:induction false} ParseNatToString(n: nat)
    ensures ParseDigits(NatToString(n)) == n
  {
    var r := NatToString(n);
    if n < 10 {
      assert r[..0] == [];
    } else {
      ParseNatToString(n / 10);
      assert r[..|r| - 1] == NatToString(n / 10);
    }
  }

  /** Distinct ids render to distinct strings, so comparing rendered ids compares the ids. */
  lemma NatToStringInjective(n: nat, m: nat)
    ensures NatToString(n) == NatToString(m) <==> n == m
  {
    if NatToString(n) == NatToString(m) {
      ParseNatToString(n);
      ParseNatToString(m);
    }
  }
}
