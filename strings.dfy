/** The Python `str` operations the pipeline relies on, over `seq<char>` (one element
    per code point, as Python's `len` counts). */
module Strings {
  import opened Wrappers

  /** Python's `str.isspace()`: the characters `str.strip()` removes and `\s` matches
      in a `str` pattern. */
  predicate IsSpace(c: char) {
    || ('\t' <= c <= '\r')
    || ('\U{1C}' <= c <= ' ')
    || c == '\U{85}' || c == '\U{A0}' || c == '\U{1680}'
    || ('\U{2000}' <= c <= '\U{200A}')
    || c == '\U{2028}' || c == '\U{2029}' || c == '\U{202F}' || c == '\U{205F}'
    || c == '\U{3000}'
  }

  /** Every character is whitespace (the empty string included). */
  predicate IsBlank(s: string) {
    forall i :: 0 <= i < |s| ==> IsSpace(s[i])
  }

  /** No whitespace at either end. */
  predicate IsStripped(s: string) {
    s == [] || (!IsSpace(s[0]) && !IsSpace(s[|s| - 1]))
  }

  /** `s.lstrip()`: the suffix left after dropping the leading whitespace. */
  function LStrip(s: string): (r: string)
    ensures |r| <= |s| && r == s[|s| - |r|..]
    ensures r == [] || !IsSpace(r[0])
    ensures forall i :: 0 <= i < |s| - |r| ==> IsSpace(s[i])
  {
    if |s| > 0 && IsSpace(s[0]) then LStrip(s[1..]) else s
  }

  /** `s.rstrip()`: the prefix left after dropping the trailing whitespace. */
  function RStrip(s: string): (r: string)
    ensures |r| <= |s| && r == s[..|r|]
    ensures r == [] || !IsSpace(r[|r| - 1])
    ensures forall i :: |r| <= i < |s| ==> IsSpace(s[i])
  {
    if |s| > 0 && IsSpace(s[|s| - 1]) then RStrip(s[..|s| - 1]) else s
  }

  /** `s.strip()`: no whitespace at either end. */
  function Strip(s: string): (r: string)
    ensures IsStripped(r)
    ensures |r| <= |s|
  {
    RStrip(LStrip(s))
  }

  /** The number of leading whitespace characters `s.strip()` drops. */
  function StripStart(s: string): nat
    ensures StripStart(s) <= |s|
  {
    |s| - |LStrip(s)|
  }

  /** `s.strip()` is a contiguous piece of `s`, and everything cut off on either side
      is whitespace. */
  lemma StripShape(s: string)
    ensures var a, r := StripStart(s), Strip(s);
      && a + |r| <= |s|
      && r == s[a..a + |r|]
      && (forall i :: 0 <= i < a ==> IsSpace(s[i]))
      && (forall i :: a + |r| <= i < |s| ==> IsSpace(s[i]))
  {
    var l := LStrip(s);
    TrailingPiece(s, l, RStrip(l));
  }

  /** `s.strip()` is a contiguous piece of `s`. */
  lemma StripIsPiece(s: string)
    ensures StripStart(s) + |Strip(s)| <= |s|
    ensures Strip(s) == s[StripStart(s)..StripStart(s) + |Strip(s)|]
  {
    StripShape(s);
  }

  /** A prefix `r` of the suffix `l` of `s` whose tail in `l` is whitespace is a
      piece of `s` followed only by whitespace. */
  lemma TrailingPiece(s: string, l: string, r: string)
    requires |l| <= |s| && l == s[|s| - |l|..]
    requires |r| <= |l| && r == l[..|r|]
    requires forall i :: |r| <= i < |l| ==> IsSpace(l[i])
    ensures var a := |s| - |l|;
      r == s[a..a + |r|] && forall i :: a + |r| <= i < |s| ==> IsSpace(s[i])
  {
    var a := |s| - |l|;
    forall i | a + |r| <= i < |s| ensures IsSpace(s[i]) {
      assert s[i] == l[i - a];
    }
  }

  lemma StripOfStripped(s: string)
    requires IsStripped(s)
    ensures Strip(s) == s
  {
  }

  /** `s.strip()` is empty exactly when `s` is all whitespace. */
  lemma StripEmptyIffBlank(s: string)
    ensures Strip(s) == [] <==> IsBlank(s)
  {
    StripShape(s);
    var a := StripStart(s);
    if Strip(s) == [] {
      forall i | 0 <= i < |s| ensures IsSpace(s[i]) {
        if i >= a { assert a + |Strip(s)| <= i; }
      }
    } else {
      assert s[a] == Strip(s)[0];
    }
  }

  /** A property of characters that survives taking a piece of the string. */
  lemma StripKeepsCharsOf(s: string, f: char -> bool)
    requires forall i :: 0 <= i < |s| ==> f(s[i])
    ensures forall i :: 0 <= i < |Strip(s)| ==> f(Strip(s)[i])
  {
    StripShape(s);
    var a := StripStart(s);
    forall i | 0 <= i < |Strip(s)| ensures f(Strip(s)[i]) {
      assert Strip(s)[i] == s[a + i];
    }
  }

  /** `bool(s.strip())`. */
  predicate NonBlank(s: string) {
    Strip(s) != []
  }

  /** A blank prefix is what `lstrip` takes away. */
  lemma {:induction false} LStripOfBlankPrefix(gap: string, rest: string)
    requires IsBlank(gap) && (rest == [] || !IsSpace(rest[0]))
    ensures LStrip(gap + rest) == rest
    decreases |gap|
  {
    if |gap| > 0 {
      assert (gap + rest)[0] == gap[0];
      assert (gap + rest)[1..] == gap[1..] + rest;
      assert IsBlank(gap[1..]) by {
        forall i | 0 <= i < |gap| - 1 ensures IsSpace(gap[1..][i]) {
          assert gap[1..][i] == gap[i + 1];
        }
      }
      LStripOfBlankPrefix(gap[1..], rest);
    } else {
      assert gap + rest == rest;
    }
  }

  /** ASCII lower-casing of one character. */
  function LowerChar(c: char): char {
    if 'A' <= c <= 'Z' then (c as int + 32) as char else c
  }

  /** ASCII lower-casing. Comparing its result with an all-ASCII-letter word gives the
      same answer as comparing Python's `str.lower()` with it (see README). */
  function LowerAscii(s: string): (r: string)
    ensures |r| == |s|
    ensures forall i :: 0 <= i < |s| ==> r[i] == LowerChar(s[i])
  {
    seq(|s|, i requires 0 <= i < |s| => LowerChar(s[i]))
  }

  /** `language.lower() == 'hindi'`, the test every language switch of the pipeline
      makes. */
  predicate IsHindi(language: string) {
    LowerAscii(language) == "hindi"
  }

  /** Case-insensitive equality of characters as `re.IGNORECASE` decides it for the
      letters of the heading words: ASCII case, plus the dotted and dotless capital
      and small i, the long s and the Kelvin sign. */
  function Fold(c: char): char {
    if 'A' <= c <= 'Z' then (c as int + 32) as char
    else if c == '\U{130}' || c == '\U{131}' then 'i'
    else if c == '\U{17F}' then 's'
    else if c == '\U{212A}' then 'k'
    else c
  }

  predicate EqualsIgnoreCase(a: string, w: string) {
    |a| == |w| && forall i :: 0 <= i < |a| ==> Fold(a[i]) == Fold(w[i])
  }

  /** `s.startswith(p)`. */
  predicate StartsWith(s: string, p: string) {
    |p| <= |s| && s[..|p|] == p
  }

  /** `p` starts at index `i` of `s`. */
  predicate OccursAt(s: string, p: string, i: int) {
    0 <= i <= |s| - |p| && s[i..i + |p|] == p
  }

  /** `p in s`: `p` occurs at some index of `s`. */
  predicate Contains(s: string, p: string) {
    exists i :: 0 <= i <= |s| - |p| && OccursAt(s, p, i)
  }

  function FindFrom(s: string, p: string, i: nat): (r: Option<nat>)
    ensures r.Some? ==> i <= r.value && OccursAt(s, p, r.value)
    ensures forall j :: i <= j && r.Some? && j < r.value ==> !OccursAt(s, p, j)
    ensures r.None? ==> forall j :: i <= j ==> !OccursAt(s, p, j)
    decreases |s| - i
  {
    if i + |p| > |s| then None
    else if s[i..i + |p|] == p then Some(i)
    else FindFrom(s, p, i + 1)
  }

  /** `s.find(p)`, with `None` for Python's -1: the first index where `p` occurs. */
  function Find(s: string, p: string): (r: Option<nat>)
    ensures r.Some? <==> Contains(s, p)
    ensures r.Some? ==> OccursAt(s, p, r.value)
                        && forall j :: 0 <= j < r.value ==> !OccursAt(s, p, j)
  {
    FindFrom(s, p, 0)
  }

  /** `s.replace(p, q)` for a non-empty `p`: leftmost, non-overlapping occurrences. */
  function ReplaceAll(s: string, p: string, q: string): string
    requires |p| > 0
    decreases |s|
  {
    if |s| < |p| then s
    else if s[..|p|] == p then q + ReplaceAll(s[|p|..], p, q)
    else [s[0]] + ReplaceAll(s[1..], p, q)
  }

  /** Replacing a pattern that does not occur changes nothing. */
  lemma {:induction false} ReplaceAbsent(s: string, p: string, q: string)
    requires |p| > 0 && !Contains(s, p)
    ensures ReplaceAll(s, p, q) == s
    decreases |s|
  {
    if |s| >= |p| {
      assert !OccursAt(s, p, 0);
      assert !Contains(s[1..], p) by {
        if Contains(s[1..], p) {
          var j :| 0 <= j <= |s[1..]| - |p| && OccursAt(s[1..], p, j);
          assert s[j + 1..j + 1 + |p|] == s[1..][j..j + |p|];
          assert OccursAt(s, p, j + 1);
        }
      }
      ReplaceAbsent(s[1..], p, q);
    }
  }

  /** With no occurrence of `p` starting before `k`, the replacement leaves `s[..k]` as
      it is and works on the rest. */
  lemma {:induction false} ReplaceAfter(s: string, p: string, q: string, k: nat)
    requires |p| > 0 && k <= |s|
    requires forall j :: 0 <= j < k ==> !OccursAt(s, p, j)
    ensures ReplaceAll(s, p, q) == s[..k] + ReplaceAll(s[k..], p, q)
    decreases k
  {
    if k == 0 {
      assert s[..0] + ReplaceAll(s[0..], p, q) == ReplaceAll(s, p, q);
    } else if |s| < |p| {
      assert ReplaceAll(s[k..], p, q) == s[k..];
      assert s[..k] + s[k..] == s;
    } else {
      assert s[0..|p|] != p by { assert !OccursAt(s, p, 0); }
      assert s[..|p|] == s[0..|p|];
      assert ReplaceAll(s, p, q) == [s[0]] + ReplaceAll(s[1..], p, q);
      forall j | 0 <= j < k - 1
        ensures !OccursAt(s[1..], p, j)
      {
        if OccursAt(s[1..], p, j) {
          assert s[j + 1..j + 1 + |p|] == s[1..][j..j + |p|];
          assert OccursAt(s, p, j + 1);
        }
      }
      ReplaceAfter(s[1..], p, q, k - 1);
      assert s[1..][k - 1..] == s[k..];
      assert [s[0]] + s[1..][..k - 1] == s[..k];
    }
  }

  /** An occurrence at the front is replaced, and the replacement goes on after it. */
  lemma ReplaceFront(p: string, b: string, q: string)
    requires |p| > 0
    ensures ReplaceAll(p + b, p, q) == q + ReplaceAll(b, p, q)
  {
    var t := p + b;
    assert t[..|p|] == p;
    assert t[|p|..] == b;
  }

  /** One occurrence of `p` between `a` and `b` is replaced, when no occurrence starts
      inside `a` and none lies in `b`. */
  lemma ReplaceSingle(a: string, p: string, b: string, q: string)
    requires |p| > 0
    requires forall j :: 0 <= j < |a| ==> !OccursAt(a + p + b, p, j)
    requires !Contains(b, p)
    ensures ReplaceAll(a + p + b, p, q) == a + q + b
  {
    var s := a + p + b;
    ReplaceAfter(s, p, q, |a|);
    assert s[..|a|] == a;
    assert s[|a|..] == p + b;
    ReplaceFront(p, b, q);
    ReplaceAbsent(b, p, q);
    assert a + (q + b) == a + q + b;
  }

  /** `' '.join(ss)`. */
  function JoinSpace(ss: seq<string>): string
  {
    if |ss| == 0 then ""
    else if |ss| == 1 then ss[0]
    else ss[0] + " " + JoinSpace(ss[1..])
  }

  /** What `\d` matches, restricted to the ASCII and Devanagari digits. */
  predicate IsDigit(c: char) {
    ('0' <= c <= '9') || ('\U{966}' <= c <= '\U{96F}')
  }

  /** Every character is a digit. */
  predicate AllDigits(s: string) {
    forall i :: 0 <= i < |s| ==> IsDigit(s[i])
  }

  /** A character of the Devanagari block U+0900..U+097F. */
  predicate IsDevanagari(c: char) {
    '\U{900}' <= c <= '\U{97F}'
  }

  /** How many characters of `s` are in the Devanagari block. */
  function DevanagariCount(s: string): (n: nat)
    ensures n <= |s|
    decreases |s|
  {
    if |s| == 0 then 0 else (if IsDevanagari(s[0]) then 1 else 0) + DevanagariCount(s[1..])
  }

  /** `s` with every `c` taken out. */
  function RemoveChar(s: string, c: char): (r: string)
    ensures |r| <= |s|
    decreases |s|
  {
    if |s| == 0 then [] else (if s[0] == c then [] else [s[0]]) + RemoveChar(s[1..], c)
  }

  /** `s.replace(c, '')` takes out every `c`. */
  lemma {:induction false} ReplaceCharByNothing(s: string, c: char)
    ensures ReplaceAll(s, [c], "") == RemoveChar(s, c)
    decreases |s|
  {
    if |s| > 0 {
      ReplaceCharByNothing(s[1..], c);
      assert (s[..1] == [c]) == (s[0] == c);
    }
  }

  /** What survives `RemoveChar`: every other character of `s`, and nothing else. */
  lemma {:induction false} RemoveCharMembers(s: string, c: char, x: char)
    ensures x in RemoveChar(s, c) <==> x in s && x != c
    decreases |s|
  {
    if |s| > 0 {
      RemoveCharMembers(s[1..], c, x);
      assert s == [s[0]] + s[1..];
    }
  }

  /** Python's `str(n)` for a non-negative integer. */
  function NatToString(n: nat): (r: string)
    ensures |r| >= 1
    ensures forall i :: 0 <= i < |r| ==> '0' <= r[i] <= '9'
    decreases n
  {
    var d := ['0' + (n % 10) as char];
    if n < 10 then d else NatToString(n / 10) + d
  }

  /** Python's `str(i)` for any integer. */
  function IntToString(i: int): string {
    if i < 0 then "-" + NatToString(-i) else NatToString(i)
  }
}
