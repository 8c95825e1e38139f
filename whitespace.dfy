/** The run-collapsing substitutions shared by the text normalisers:
    `re.sub(' +', ' ', s)`, `re.sub('\n\n+', '\n\n', s)` and `re.sub('\s+', ' ', s)`,
    each written out as the leftmost, longest-match scan `re.sub` performs. */
module Whitespace {
  import opened Strings

  /** `s` without its leading run of `c`. */
  function DropLeading(s: string, c: char): (r: string)
    ensures |r| <= |s| && r == s[|s| - |r|..]
    ensures r == [] || r[0] != c
    decreases |s|
  {
    if |s| > 0 && s[0] == c then DropLeading(s[1..], c) else s
  }

  /** `re.sub(' +', ' ', s)`: every run of spaces becomes one space. `re.sub(' {2,}',
      ' ', s)` gives the same string, since it only leaves single spaces alone. */
  function SqueezeSpaces(s: string): (r: string)
    ensures |r| <= |s|
    ensures |s| > 0 ==> |r| > 0 && r[0] == s[0]
    decreases |s|
  {
    if |s| == 0 then []
    else if s[0] == ' ' then [' '] + SqueezeSpaces(DropLeading(s[1..], ' '))
    else [s[0]] + SqueezeSpaces(s[1..])
  }

  /** `re.sub('\n\n+', '\n\n', s)`: every run of two or more newlines becomes exactly
      two. `re.sub('\n{3,}', '\n\n', s)` gives the same string. */
  function SqueezeNewlines(s: string): (r: string)
    ensures |r| <= |s|
    ensures |s| > 0 ==> |r| > 0 && r[0] == s[0]
    decreases |s|
  {
    if |s| == 0 then []
    else if |s| >= 2 && s[0] == '\n' && s[1] == '\n' then
      "\n\n" + SqueezeNewlines(DropLeading(s[2..], '\n'))
    else [s[0]] + SqueezeNewlines(s[1..])
  }

  /** `re.sub(r'\s+', ' ', s)`: every run of whitespace becomes one space. */
  function SquashSpace(s: string): (r: string)
    ensures |r| <= |s|
    ensures |s| > 0 ==> |r| > 0 && r[0] == (if IsSpace(s[0]) then ' ' else s[0])
    decreases |s|
  {
    if |s| == 0 then []
    else if IsSpace(s[0]) then [' '] + SquashSpace(LStrip(s[1..]))
    else [s[0]] + SquashSpace(s[1..])
  }

  /** No two spaces in a row. */
  predicate NoDoubleSpace(s: string) {
    forall i :: 0 <= i < |s| - 1 ==> !(s[i] == ' ' && s[i + 1] == ' ')
  }

  /** No three newlines in a row. */
  predicate NoTripleNewline(s: string) {
    forall i :: 0 <= i < |s| - 2 ==> !(s[i] == '\n' && s[i + 1] == '\n' && s[i + 2] == '\n')
  }

  /** The only whitespace is single spaces. */
  predicate SingleSpaced(s: string) {
    forall i :: 0 <= i < |s| && IsSpace(s[i]) ==> s[i] == ' ' && (i + 1 < |s| ==> !IsSpace(s[i + 1]))
  }

  lemma ConsNoDoubleSpace(c: char, t: string)
    requires NoDoubleSpace(t) && (c == ' ' ==> t == [] || t[0] != ' ')
    ensures NoDoubleSpace([c] + t)
  {
    var s := [c] + t;
    forall i | 0 < i < |s| - 1 ensures !(s[i] == ' ' && s[i + 1] == ' ') {
      assert s[i] == t[i - 1] && s[i + 1] == t[i];
    }
  }

  lemma ConsNoTripleNewline(c: char, t: string)
    requires NoTripleNewline(t) && (c == '\n' && |t| >= 2 ==> !(t[0] == '\n' && t[1] == '\n'))
    ensures NoTripleNewline([c] + t)
  {
    var s := [c] + t;
    forall i | 0 < i < |s| - 2 ensures !(s[i] == '\n' && s[i + 1] == '\n' && s[i + 2] == '\n') {
      assert s[i] == t[i - 1] && s[i + 1] == t[i] && s[i + 2] == t[i + 1];
    }
  }

  lemma ConsSingleSpaced(c: char, t: string)
    requires SingleSpaced(t) && (IsSpace(c) ==> c == ' ' && (t == [] || !IsSpace(t[0])))
    ensures SingleSpaced([c] + t)
  {
    var s := [c] + t;
    forall i | 0 < i < |s| && IsSpace(s[i])
      ensures s[i] == ' ' && (i + 1 < |s| ==> !IsSpace(s[i + 1]))
    {
      assert s[i] == t[i - 1];
      if i + 1 < |s| { assert s[i + 1] == t[i]; }
    }
  }

  lemma NewlinePairNoDoubleSpace(t: string)
    requires NoDoubleSpace(t)
    ensures NoDoubleSpace("\n\n" + t)
  {
    ConsNoDoubleSpace('\n', t);
    ConsNoDoubleSpace('\n', ['\n'] + t);
    assert "\n\n" + t == ['\n'] + (['\n'] + t);
  }

  lemma NewlinePairNoTriple(t: string)
    requires NoTripleNewline(t) && (t == [] || t[0] != '\n')
    ensures NoTripleNewline("\n\n" + t)
  {
    ConsNoTripleNewline('\n', t);
    ConsNoTripleNewline('\n', ['\n'] + t);
    assert "\n\n" + t == ['\n'] + (['\n'] + t);
  }

  /** A piece of a string keeps what the string does not contain. */
  lemma SliceNoDoubleSpace(s: string, a: nat, b: nat, t: string)
    requires a <= b <= |s| && t == s[a..b] && NoDoubleSpace(s)
    ensures NoDoubleSpace(t)
  {
    assert forall i :: 0 <= i < |t| ==> t[i] == s[a + i];
  }

  lemma SliceNoTripleNewline(s: string, a: nat, b: nat, t: string)
    requires a <= b <= |s| && t == s[a..b] && NoTripleNewline(s)
    ensures NoTripleNewline(t)
  {
    assert forall i :: 0 <= i < |t| ==> t[i] == s[a + i];
  }

  lemma SliceSingleSpaced(s: string, a: nat, b: nat, t: string)
    requires a <= b <= |s| && t == s[a..b] && SingleSpaced(s)
    ensures SingleSpaced(t)
  {
    assert forall i :: 0 <= i < |t| ==> t[i] == s[a + i];
  }

  /** `strip` takes a piece of the string, so it keeps what the string does not
      contain. */
  lemma StripNoDoubleSpace(s: string)
    requires NoDoubleSpace(s)
    ensures NoDoubleSpace(Strip(s))
  {
    StripIsPiece(s);
    SliceNoDoubleSpace(s, StripStart(s), StripStart(s) + |Strip(s)|, Strip(s));
  }

  lemma StripNoTripleNewline(s: string)
    requires NoTripleNewline(s)
    ensures NoTripleNewline(Strip(s))
  {
    StripIsPiece(s);
    SliceNoTripleNewline(s, StripStart(s), StripStart(s) + |Strip(s)|, Strip(s));
  }

  lemma StripSingleSpaced(s: string)
    requires SingleSpaced(s)
    ensures SingleSpaced(Strip(s))
  {
    StripIsPiece(s);
    SliceSingleSpaced(s, StripStart(s), StripStart(s) + |Strip(s)|, Strip(s));
  }

  lemma {:induction false} SqueezeSpacesNoDouble(s: string)
    ensures NoDoubleSpace(SqueezeSpaces(s))
    decreases |s|
  {
    if |s| > 0 {
      if s[0] == ' ' {
        var rest := DropLeading(s[1..], ' ');
        SqueezeSpacesNoDouble(rest);
        ConsNoDoubleSpace(' ', SqueezeSpaces(rest));
      } else {
        SqueezeSpacesNoDouble(s[1..]);
        ConsNoDoubleSpace(s[0], SqueezeSpaces(s[1..]));
      }
    }
  }

  /** Without two spaces in a row there is nothing to squeeze. */
  lemma {:induction false} SqueezeSpacesNoop(s: string)
    requires NoDoubleSpace(s)
    ensures SqueezeSpaces(s) == s
    decreases |s|
  {
    if |s| > 0 {
      SliceNoDoubleSpace(s, 1, |s|, s[1..]);
      SqueezeSpacesNoop(s[1..]);
      if s[0] == ' ' {
        assert |s| > 1 ==> s[1] != ' ';
        assert DropLeading(s[1..], ' ') == s[1..];
      }
    }
  }

  /** Squeezing newlines never puts two spaces side by side. */
  lemma {:induction false} SqueezeNewlinesKeepsSpacing(s: string)
    requires NoDoubleSpace(s)
    ensures NoDoubleSpace(SqueezeNewlines(s))
    decreases |s|
  {
    if |s| >= 2 && s[0] == '\n' && s[1] == '\n' {
      var tail := s[2..];
      var rest := DropLeading(tail, '\n');
      SliceNoDoubleSpace(s, 2, |s|, tail);
      SliceNoDoubleSpace(tail, |tail| - |rest|, |tail|, rest);
      SqueezeNewlinesKeepsSpacing(rest);
      NewlinePairNoDoubleSpace(SqueezeNewlines(rest));
    } else if |s| > 0 {
      var tail := s[1..];
      SliceNoDoubleSpace(s, 1, |s|, tail);
      SqueezeNewlinesKeepsSpacing(tail);
      assert |s| > 1 && s[0] == ' ' ==> tail[0] != ' ';
      ConsNoDoubleSpace(s[0], SqueezeNewlines(tail));
    }
  }

  lemma {:induction false} SqueezeNewlinesNoTriple(s: string)
    ensures NoTripleNewline(SqueezeNewlines(s))
    decreases |s|
  {
    if |s| >= 2 && s[0] == '\n' && s[1] == '\n' {
      var rest := DropLeading(s[2..], '\n');
      SqueezeNewlinesNoTriple(rest);
      NewlinePairNoTriple(SqueezeNewlines(rest));
    } else if |s| > 0 {
      SqueezeNewlinesNoTriple(s[1..]);
      ConsNoTripleNewline(s[0], SqueezeNewlines(s[1..]));
    }
  }

  /** Without three newlines in a row there is nothing to squeeze. */
  lemma {:induction false} SqueezeNewlinesNoop(s: string)
    requires NoTripleNewline(s)
    ensures SqueezeNewlines(s) == s
    decreases |s|
  {
    if |s| >= 2 && s[0] == '\n' && s[1] == '\n' {
      SliceNoTripleNewline(s, 2, |s|, s[2..]);
      assert |s| > 2 ==> s[2] != '\n';
      assert DropLeading(s[2..], '\n') == s[2..];
      SqueezeNewlinesNoop(s[2..]);
      assert s == "\n\n" + s[2..];
    } else if |s| > 0 {
      SliceNoTripleNewline(s, 1, |s|, s[1..]);
      SqueezeNewlinesNoop(s[1..]);
    }
  }

  lemma {:induction false} SquashSpaceSingle(s: string)
    ensures SingleSpaced(SquashSpace(s))
    decreases |s|
  {
    if |s| > 0 {
      if IsSpace(s[0]) {
        var rest := LStrip(s[1..]);
        SquashSpaceSingle(rest);
        ConsSingleSpaced(' ', SquashSpace(rest));
      } else {
        SquashSpaceSingle(s[1..]);
        ConsSingleSpaced(s[0], SquashSpace(s[1..]));
      }
    }
  }

  /** Single spaces only: nothing to squash. */
  lemma {:induction false} SquashSpaceNoop(s: string)
    requires SingleSpaced(s)
    ensures SquashSpace(s) == s
    decreases |s|
  {
    if |s| > 0 {
      SliceSingleSpaced(s, 1, |s|, s[1..]);
      SquashSpaceNoop(s[1..]);
      if IsSpace(s[0]) {
        assert |s| > 1 ==> !IsSpace(s[1]);
        assert LStrip(s[1..]) == s[1..];
      }
    }
  }
}
