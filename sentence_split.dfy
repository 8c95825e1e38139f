/** The two sentence splitters of `chunk_sentences_phase1.py`: Hindi text cut at an
    end mark followed by whitespace, and English text cut after an end mark where
    whitespace and a capital letter follow, with common abbreviations masked first.
    Each `re.split` is written out as the leftmost scan it performs. */
module SentenceSplit {
  import opened Sequences
  import opened Strings

  /** `[s.strip() for s in pieces if s.strip()]`. */
  function Kept(pieces: seq<string>): seq<string> {
    MapSeq(Strip, Filter(pieces, NonBlank))
  }

  /** What is kept is stripped and not empty. */
  lemma KeptShape(pieces: seq<string>)
    ensures forall i :: 0 <= i < |Kept(pieces)| ==> Kept(pieces)[i] != [] && IsStripped(Kept(pieces)[i])
  {
    var f := Filter(pieces, NonBlank);
    forall i | 0 <= i < |Kept(pieces)| ensures Kept(pieces)[i] != [] && IsStripped(Kept(pieces)[i]) {
      assert NonBlank(f[i]);
    }
  }

  /** Every kept sentence is a stripped piece. */
  lemma KeptFromPieces(pieces: seq<string>, i: nat)
    requires i < |Kept(pieces)|
    ensures exists k :: 0 <= k < |pieces| && Kept(pieces)[i] == Strip(pieces[k])
  {
    var f := Filter(pieces, NonBlank);
    assert f[i] in pieces;
  }

  // Hindi

  /** The class `[।.!?]`. */
  predicate IsHindiStop(c: char) {
    c == '\U{964}' || c == '.' || c == '!' || c == '?'
  }

  /** `[।.!?]\s+` matches at `i`. */
  predicate HindiBreakAt(s: string, i: int) {
    0 <= i && i + 1 < |s| && IsHindiStop(s[i]) && IsSpace(s[i + 1])
  }

  /** The first match at or after `i`, or `|s|`. */
  function HindiBreak(s: string, i: nat): (j: nat)
    requires i <= |s|
    ensures i <= j <= |s|
    decreases |s| - i
  {
    if i == |s| then |s| else if HindiBreakAt(s, i) then i else HindiBreak(s, i + 1)
  }

  /** The scan stops at a match, and passes none on the way. */
  lemma {:induction false} HindiBreakIsFirst(s: string, i: nat)
    requires i <= |s|
    ensures HindiBreak(s, i) < |s| ==> HindiBreakAt(s, HindiBreak(s, i))
    ensures forall k :: i <= k < HindiBreak(s, i) ==> !HindiBreakAt(s, k)
    decreases |s| - i
  {
    if i < |s| && !HindiBreakAt(s, i) {
      HindiBreakIsFirst(s, i + 1);
    }
  }

  /** `re.split(r'[।.!?]\s+', s)`: the pieces between the matches, each match being the
      mark and its whole run of whitespace. */
  function HindiPieces(s: string): (r: seq<string>)
    ensures |r| >= 1
    decreases |s|
  {
    var j := HindiBreak(s, 0);
    if j == |s| then [s] else [s[..j]] + HindiPieces(LStrip(s[j + 1..]))
  }

  /** `split_hindi_sentences(text)`. */
  function SplitHindiSentences(text: string): (r: seq<string>)
    ensures forall i :: 0 <= i < |r| ==> r[i] != [] && IsStripped(r[i])
  {
    KeptShape(HindiPieces(text));
    Kept(HindiPieces(text))
  }

  /** No end mark followed by whitespace. */
  predicate NoHindiBreak(s: string) {
    forall i :: 0 <= i < |s| ==> !HindiBreakAt(s, i)
  }

  lemma SliceNoHindiBreak(s: string, a: nat, b: nat, t: string)
    requires a <= b <= |s| && t == s[a..b] && NoHindiBreak(s)
    ensures NoHindiBreak(t)
  {
    forall i | 0 <= i < |t| ensures !HindiBreakAt(t, i) {
      if 0 <= i && i + 1 < |t| {
        assert t[i] == s[a + i] && t[i + 1] == s[a + i + 1];
        assert !HindiBreakAt(s, a + i);
      }
    }
  }

  /** The text before the first match holds no match. */
  lemma HindiHeadNoBreak(s: string)
    ensures NoHindiBreak(s[..HindiBreak(s, 0)])
  {
    var j := HindiBreak(s, 0);
    HindiBreakIsFirst(s, 0);
    var t := s[..j];
    forall i | 0 <= i < |t| ensures !HindiBreakAt(t, i) {
      if 0 <= i && i + 1 < |t| {
        assert t[i] == s[i] && t[i + 1] == s[i + 1];
        assert !HindiBreakAt(s, i);
      }
    }
  }

  /** No piece holds an end mark followed by whitespace. */
  lemma {:induction false} HindiPiecesNoBreak(s: string)
    ensures forall k :: 0 <= k < |HindiPieces(s)| ==> NoHindiBreak(HindiPieces(s)[k])
    decreases |s|
  {
    var j := HindiBreak(s, 0);
    HindiHeadNoBreak(s);
    if j == |s| {
      assert s[..j] == s;
    } else {
      var rest := LStrip(s[j + 1..]);
      HindiPiecesNoBreak(rest);
      HindiUnfold(s, j, rest);
      NoBreakCons(s[..j], HindiPieces(rest), HindiPieces(s));
    }
  }

  lemma HindiUnfold(s: string, j: nat, rest: string)
    requires j == HindiBreak(s, 0) && j < |s| && rest == LStrip(s[j + 1..])
    ensures HindiPieces(s) == [s[..j]] + HindiPieces(rest)
  {
    assert j != |s|;
  }

  lemma NoBreakCons(head: string, tail: seq<string>, r: seq<string>)
    requires r == [head] + tail && NoHindiBreak(head)
    requires forall k :: 0 <= k < |tail| ==> NoHindiBreak(tail[k])
    ensures forall k :: 0 <= k < |r| ==> NoHindiBreak(r[k])
  {
    assert forall k :: 1 <= k < |r| ==> r[k] == tail[k - 1];
  }

  /** No sentence holds an end mark followed by whitespace: every such place was a cut,
      and the mark and the whitespace are gone. */
  lemma HindiSentencesNoBreak(text: string)
    ensures forall i :: 0 <= i < |SplitHindiSentences(text)| ==> NoHindiBreak(SplitHindiSentences(text)[i])
  {
    var pieces := HindiPieces(text);
    HindiPiecesNoBreak(text);
    forall i | 0 <= i < |SplitHindiSentences(text)| ensures NoHindiBreak(SplitHindiSentences(text)[i]) {
      KeptFromPieces(pieces, i);
      var k :| 0 <= k < |pieces| && Kept(pieces)[i] == Strip(pieces[k]);
      StripNoHindiBreak(pieces[k]);
    }
  }

  lemma StripNoHindiBreak(x: string)
    requires NoHindiBreak(x)
    ensures NoHindiBreak(Strip(x))
  {
    StripIsPiece(x);
    SliceNoHindiBreak(x, StripStart(x), StripStart(x) + |Strip(x)|, Strip(x));
  }

  /** A cut: text without a match, one end mark, whitespace, and text that does not
      start with whitespace splits into the first text and the pieces of the rest. */
  lemma HindiCut(a: string, c: char, gap: string, b: string)
    requires NoHindiBreak(a) && IsHindiStop(c) && |gap| > 0 && IsBlank(gap)
    requires b == [] || !IsSpace(b[0])
    ensures HindiPieces(a + [c] + gap + b) == [a] + HindiPieces(b)
  {
    var s := a + [c] + gap + b;
    CutSlices(a, c, gap, b, s);
    NoBreakBeforeStop(a, c, s);
    FirstHindiBreak(s, |a|);
    CutPieces(s, |a|, a, gap + b);
    LStripOfBlankPrefix(gap, b);
  }

  lemma CutSlices(a: string, c: char, gap: string, b: string, s: string)
    requires |gap| > 0 && s == a + [c] + gap + b
    ensures |a| + 1 < |s| && s[|a|] == c && s[|a| + 1] == gap[0]
    ensures s[..|a| + 1] == a + [c] && s[..|a|] == a && s[|a| + 1..] == gap + b
  {
  }

  /** A stop mark after text without a match leaves that text without one. */
  lemma NoBreakBeforeStop(a: string, c: char, s: string)
    requires NoHindiBreak(a) && IsHindiStop(c) && |a| < |s| && s[..|a| + 1] == a + [c]
    ensures forall k :: 0 <= k < |a| ==> !HindiBreakAt(s, k)
  {
    forall k | 0 <= k < |a| ensures !HindiBreakAt(s, k) {
      assert s[..|a| + 1][k] == s[k] && s[..|a| + 1][k + 1] == s[k + 1];
      if k + 1 < |a| {
        assert !HindiBreakAt(a, k);
      }
    }
  }

  lemma CutPieces(s: string, n: nat, head: string, tail: string)
    requires n < |s| && HindiBreak(s, 0) == n && head == s[..n] && tail == s[n + 1..]
    ensures HindiPieces(s) == [head] + HindiPieces(LStrip(tail))
  {
  }

  lemma {:induction false} FirstHindiBreak(s: string, n: nat)
    requires n < |s| && HindiBreakAt(s, n) && forall k :: 0 <= k < n ==> !HindiBreakAt(s, k)
    ensures HindiBreak(s, 0) == n
  {
    HindiBreakFrom(s, 0, n);
  }

  lemma {:induction false} HindiBreakFrom(s: string, i: nat, n: nat)
    requires i <= n < |s| && HindiBreakAt(s, n) && forall k :: i <= k < n ==> !HindiBreakAt(s, k)
    ensures HindiBreak(s, i) == n
    decreases n - i
  {
    if i < n {
      HindiBreakFrom(s, i + 1, n);
    }
  }

  // English

  predicate IsTerminal(c: char) {
    c == '.' || c == '!' || c == '?'
  }

  predicate IsUpper(c: char) {
    'A' <= c <= 'Z'
  }

  /** `(?<=[.!?])\s+(?=[A-Z])` matches at `p`: an end mark before, whitespace from `p`
      on, and a capital letter after the whole run of it (the greedy `\s+` can only
      give up whitespace, which is no capital). */
  predicate EnglishBreakAt(s: string, p: int) {
    && 0 < p < |s| && IsTerminal(s[p - 1]) && IsSpace(s[p])
    && var t := LStrip(s[p..]);
       |t| > 0 && IsUpper(t[0])
  }

  /** The first match at or after `i`, or `|s|`. */
  function EnglishBreak(s: string, i: nat): (j: nat)
    requires i <= |s|
    ensures i <= j <= |s|
    decreases |s| - i
  {
    if i == |s| then |s| else if EnglishBreakAt(s, i) then i else EnglishBreak(s, i + 1)
  }

  /** The scan stops at a match, and passes none on the way. */
  lemma {:induction false} EnglishBreakIsFirst(s: string, i: nat)
    requires i <= |s|
    ensures EnglishBreak(s, i) < |s| ==> EnglishBreakAt(s, EnglishBreak(s, i))
    ensures forall k :: i <= k < EnglishBreak(s, i) ==> !EnglishBreakAt(s, k)
    decreases |s| - i
  {
    if i < |s| && !EnglishBreakAt(s, i) {
      EnglishBreakIsFirst(s, i + 1);
    }
  }

  /** `re.split(r'(?<=[.!?])\s+(?=[A-Z])', s)`: the end mark stays in the piece before
      a cut, the whitespace is dropped, and the capital starts the next piece. */
  function EnglishPieces(s: string): (r: seq<string>)
    ensures |r| >= 1
    decreases |s|
  {
    var j := EnglishBreak(s, 0);
    if j == |s| then [s] else [s[..j]] + EnglishPieces(LStrip(s[j..]))
  }

  /** The ten `replace` calls that hide the dots of the abbreviations, in order. */
  function Mask(text: string): string {
    var t1 := ReplaceAll(text, "Dr.", "Dr<DOT>");
    var t2 := ReplaceAll(t1, "Mr.", "Mr<DOT>");
    var t3 := ReplaceAll(t2, "Mrs.", "Mrs<DOT>");
    var t4 := ReplaceAll(t3, "Ms.", "Ms<DOT>");
    var t5 := ReplaceAll(t4, "U.S.", "U<DOT>S<DOT>");
    var t6 := ReplaceAll(t5, "U.K.", "U<DOT>K<DOT>");
    var t7 := ReplaceAll(t6, "etc.", "etc<DOT>");
    var t8 := ReplaceAll(t7, "Ltd.", "Ltd<DOT>");
    var t9 := ReplaceAll(t8, "Inc.", "Inc<DOT>");
    ReplaceAll(t9, "Co.", "Co<DOT>")
  }

  /** `s.replace('<DOT>', '.')`. */
  function Restore(s: string): string {
    ReplaceAll(s, "<DOT>", ".")
  }

  /** `split_english_sentences(text)`. */
  function SplitEnglishSentences(text: string): (r: seq<string>)
    ensures forall i :: 0 <= i < |r| ==> r[i] != [] && IsStripped(r[i])
  {
    KeptShape(MapSeq(Restore, EnglishPieces(Mask(text))));
    Kept(MapSeq(Restore, EnglishPieces(Mask(text))))
  }

  /** A match inside a prefix that ends in an end mark is a match of the whole text:
      the whitespace run it starts ends before the prefix does. */
  lemma BreakInPrefix(s: string, j: nat, p: int)
    requires 0 < j <= |s| && !IsSpace(s[j - 1]) && EnglishBreakAt(s[..j], p)
    ensures EnglishBreakAt(s, p)
  {
    var t := s[..j];
    assert t[p - 1] == s[p - 1] && t[p] == s[p];
    assert s[p..] == t[p..] + s[j..];
    LStripAppend(t[p..], s[j..]);
  }

  /** `lstrip` of a text that is not all whitespace only touches that text. */
  lemma {:induction false} LStripAppend(x: string, y: string)
    requires LStrip(x) != []
    ensures LStrip(x + y) == LStrip(x) + y
    decreases |x|
  {
    assert |x| > 0;
    assert (x + y)[0] == x[0];
    if IsSpace(x[0]) {
      assert (x + y)[1..] == x[1..] + y;
      LStripAppend(x[1..], y);
    }
  }

  /** No match of the end-of-sentence pattern. */
  predicate NoEnglishBreak(s: string) {
    forall p :: 0 <= p < |s| ==> !EnglishBreakAt(s, p)
  }

  /** The text before the first match holds none. */
  lemma EnglishHeadNoBreak(s: string)
    ensures NoEnglishBreak(s[..EnglishBreak(s, 0)])
  {
    var j := EnglishBreak(s, 0);
    EnglishBreakIsFirst(s, 0);
    if j == |s| {
      assert s[..j] == s;
    } else {
      forall p | 0 <= p < j ensures !EnglishBreakAt(s[..j], p) {
        if EnglishBreakAt(s[..j], p) {
          BreakInPrefix(s, j, p);
        }
      }
    }
  }

  /** No piece holds a match of the pattern; every piece but the last ends in an end
      mark, and every piece but the first starts with a capital letter. */
  predicate EnglishShape(r: seq<string>) {
    && (forall k :: 0 <= k < |r| ==> NoEnglishBreak(r[k]))
    && (forall k :: 0 <= k < |r| - 1 ==> |r[k]| > 0 && IsTerminal(r[k][|r[k]| - 1]))
    && (forall k :: 0 < k < |r| ==> |r[k]| > 0 && IsUpper(r[k][0]))
  }

  /** The pieces of the English split have that shape. */
  lemma {:induction false} EnglishPiecesShape(s: string)
    ensures EnglishShape(EnglishPieces(s))
    decreases |s|
  {
    var j := EnglishBreak(s, 0);
    EnglishHeadNoBreak(s);
    if j == |s| {
      assert s[..j] == s;
    } else {
      EnglishBreakIsFirst(s, 0);
      var rest := LStrip(s[j..]);
      EnglishPiecesShape(rest);
      EnglishRestHead(s, j, rest);
      HeadEndsTerminal(s, j);
      EnglishUnfold(s, j, rest);
      ShapeCons(s[..j], EnglishPieces(rest), EnglishPieces(s));
    }
  }

  lemma EnglishUnfold(s: string, j: nat, rest: string)
    requires j == EnglishBreak(s, 0) && j < |s| && rest == LStrip(s[j..])
    ensures EnglishPieces(s) == [s[..j]] + EnglishPieces(rest)
  {
  }

  lemma HeadEndsTerminal(s: string, j: nat)
    requires j < |s| && EnglishBreakAt(s, j)
    ensures |s[..j]| > 0 && IsTerminal(s[..j][|s[..j]| - 1])
  {
    assert s[..j][j - 1] == s[j - 1];
  }

  lemma ShapeCons(head: string, tail: seq<string>, r: seq<string>)
    requires r == [head] + tail && EnglishShape(tail) && NoEnglishBreak(head)
    requires |head| > 0 && IsTerminal(head[|head| - 1])
    requires |tail| > 0 && |tail[0]| > 0 && IsUpper(tail[0][0])
    ensures EnglishShape(r)
  {
    assert forall k :: 1 <= k < |r| ==> r[k] == tail[k - 1];
  }

  /** After a cut the next piece starts with the capital letter. */
  lemma EnglishRestHead(s: string, j: nat, rest: string)
    requires j < |s| && EnglishBreakAt(s, j) && rest == LStrip(s[j..])
    ensures |EnglishPieces(rest)[0]| > 0 && IsUpper(EnglishPieces(rest)[0][0])
  {
    assert |rest| > 0 && IsUpper(rest[0]);
    FirstPieceHead(rest);
  }

  /** The first piece of a non-empty text starts with its first character. */
  lemma FirstPieceHead(t: string)
    requires |t| > 0
    ensures |EnglishPieces(t)[0]| > 0 && EnglishPieces(t)[0][0] == t[0]
  {
    var k := EnglishBreak(t, 0);
    EnglishBreakIsFirst(t, 0);
    if k < |t| {
      assert t[..k][0] == t[0];
    }
  }
}
