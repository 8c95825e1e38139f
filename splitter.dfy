/** `modules/splitter.py`: text cut into sentences at runs of end-of-sentence marks,
    with `re.split` on a character class followed by strip-and-drop-empty. */
module Splitter {
  import opened Sequences
  import opened Strings

  /** The delimiter class: `config.ENGLISH_SENTENCE_DELIMITERS` is `[.!?]+`, and
      `config.HINDI_SENTENCE_DELIMITERS` (`hindi`) adds U+0964 DEVANAGARI DANDA. */
  predicate IsDelim(hindi: bool, c: char) {
    c == '.' || c == '!' || c == '?' || (hindi && c == '\U{964}')
  }

  /** No character of `s` is a delimiter. */
  predicate Free(hindi: bool, s: string) {
    forall j :: 0 <= j < |s| ==> !IsDelim(hindi, s[j])
  }

  /** `s` with its leading run of delimiters removed. */
  function DropRun(hindi: bool, s: string): (r: string)
    ensures |r| <= |s| && r == s[|s| - |r|..]
    ensures r == [] || !IsDelim(hindi, r[0])
    decreases |s|
  {
    if |s| > 0 && IsDelim(hindi, s[0]) then DropRun(hindi, s[1..]) else s
  }

  /** What `DropRun` removes is a run of delimiters. */
  lemma {:induction false} DropRunDrops(hindi: bool, s: string)
    ensures forall j :: 0 <= j < |s| - |DropRun(hindi, s)| ==> IsDelim(hindi, s[j])
    decreases |s|
  {
    if |s| > 0 && IsDelim(hindi, s[0]) {
      DropRunDrops(hindi, s[1..]);
      forall j | 0 < j < |s| - |DropRun(hindi, s)| ensures IsDelim(hindi, s[j]) {
        assert s[j] == s[1..][j - 1];
      }
    }
  }

  /** The index of the first delimiter of `s`, or `|s|` when there is none. */
  function DelimIndex(hindi: bool, s: string): (j: nat)
    ensures j <= |s| && Free(hindi, s[..j])
    ensures j < |s| ==> IsDelim(hindi, s[j])
    decreases |s|
  {
    if |s| == 0 || IsDelim(hindi, s[0]) then 0
    else
      var j := 1 + DelimIndex(hindi, s[1..]);
      assert forall k :: 1 <= k < j ==> s[..j][k] == s[1..][..j - 1][k - 1];
      j
  }

  /** `re.split(pattern, s)`: the pieces between maximal runs of delimiters, with an
      empty first (last) piece when `s` starts (ends) with a run. */
  function Split(hindi: bool, s: string): (r: seq<string>)
    ensures |r| >= 1 && forall i :: 0 <= i < |r| ==> Free(hindi, r[i])
    decreases |s|
  {
    var j := DelimIndex(hindi, s);
    if j == |s| then [s] else [s[..j]] + Split(hindi, DropRun(hindi, s[j + 1..]))
  }

  /** The characters that are not delimiters, in order. */
  function Content(hindi: bool, s: string): string
    decreases |s|
  {
    if |s| == 0 then []
    else (if IsDelim(hindi, s[0]) then [] else [s[0]]) + Content(hindi, s[1..])
  }

  lemma {:induction false} ContentAppend(hindi: bool, a: string, b: string)
    ensures Content(hindi, a + b) == Content(hindi, a) + Content(hindi, b)
    decreases |a|
  {
    if |a| > 0 {
      assert (a + b)[0] == a[0] && (a + b)[1..] == a[1..] + b;
      ContentAppend(hindi, a[1..], b);
    } else {
      assert a + b == b;
    }
  }

  lemma {:induction false} ContentOfFree(hindi: bool, s: string)
    requires Free(hindi, s)
    ensures Content(hindi, s) == s
    decreases |s|
  {
    if |s| > 0 {
      assert Free(hindi, s[1..]) by {
        forall j | 0 <= j < |s| - 1 ensures !IsDelim(hindi, s[1..][j]) {
          assert s[1..][j] == s[j + 1];
        }
      }
      ContentOfFree(hindi, s[1..]);
    }
  }

  lemma {:induction false} ContentOfRun(hindi: bool, s: string, n: nat)
    requires n <= |s| && forall j :: 0 <= j < n ==> IsDelim(hindi, s[j])
    ensures Content(hindi, s) == Content(hindi, s[n..])
    decreases n
  {
    if n > 0 {
      ContentOfRun(hindi, s[1..], n - 1);
      assert s[1..][n - 1..] == s[n..];
    }
  }

  /** Read in order, the pieces are the text with the delimiters taken out. */
  lemma {:induction false} SplitKeepsOrder(hindi: bool, s: string)
    ensures Flatten(Split(hindi, s)) == Content(hindi, s)
    decreases |s|, 1
  {
    if DelimIndex(hindi, s) == |s| {
      SplitWhole(hindi, s);
    } else {
      SplitStep(hindi, s);
    }
  }

  lemma SplitWhole(hindi: bool, s: string)
    requires DelimIndex(hindi, s) == |s|
    ensures Flatten(Split(hindi, s)) == Content(hindi, s)
  {
    assert s[..|s|] == s;
    ContentOfFree(hindi, s);
    FlattenCons(s, []);
  }

  /** A piece ending at the first delimiter, then the pieces of what follows its run. */
  lemma {:induction false} SplitStep(hindi: bool, s: string)
    requires DelimIndex(hindi, s) < |s|
    ensures Flatten(Split(hindi, s)) == Content(hindi, s)
    decreases |s|, 0
  {
    SplitKeepsOrder(hindi, DropRun(hindi, s[DelimIndex(hindi, s) + 1..]));
    SplitReduce(hindi, s);
  }

  lemma SplitReduce(hindi: bool, s: string)
    requires DelimIndex(hindi, s) < |s|
    requires var rest := DropRun(hindi, s[DelimIndex(hindi, s) + 1..]);
      Flatten(Split(hindi, rest)) == Content(hindi, rest)
    ensures Flatten(Split(hindi, s)) == Content(hindi, s)
  {
    SplitFlatCons(hindi, s);
    ContentAtDelim(hindi, s);
  }

  lemma ContentAtDelim(hindi: bool, s: string)
    requires DelimIndex(hindi, s) < |s|
    ensures var j := DelimIndex(hindi, s);
      Content(hindi, s) == s[..j] + Content(hindi, DropRun(hindi, s[j + 1..]))
  {
    ContentStep(hindi, s, DelimIndex(hindi, s));
  }

  lemma SplitFlatCons(hindi: bool, s: string)
    requires DelimIndex(hindi, s) < |s|
    ensures var j := DelimIndex(hindi, s);
      Flatten(Split(hindi, s)) == s[..j] + Flatten(Split(hindi, DropRun(hindi, s[j + 1..])))
  {
    var j := DelimIndex(hindi, s);
    SplitCons(hindi, s);
    FlattenCons(s[..j], Split(hindi, DropRun(hindi, s[j + 1..])));
  }

  lemma SplitCons(hindi: bool, s: string)
    requires DelimIndex(hindi, s) < |s|
    ensures var j := DelimIndex(hindi, s);
      Split(hindi, s) == [s[..j]] + Split(hindi, DropRun(hindi, s[j + 1..]))
  {
  }

  /** The content of `s` is its delimiter-free stretch up to `j` followed by the
      content after the run of delimiters at `j`. */
  lemma ContentStep(hindi: bool, s: string, j: nat)
    requires j < |s| && Free(hindi, s[..j]) && IsDelim(hindi, s[j])
    ensures Content(hindi, s) == s[..j] + Content(hindi, DropRun(hindi, s[j + 1..]))
  {
    var rest := DropRun(hindi, s[j + 1..]);
    var n := 1 + |s[j + 1..]| - |rest|;
    assert s == s[..j] + s[j..];
    ContentAppend(hindi, s[..j], s[j..]);
    ContentOfFree(hindi, s[..j]);
    DropRunDrops(hindi, s[j + 1..]);
    assert forall k :: 1 <= k < n ==> s[j..][k] == s[j + 1..][k - 1];
    ContentOfRun(hindi, s[j..], n);
    assert s[j..][n..] == rest;
  }

  /** `split_sentences(text, language)`. */
  function SplitSentences(text: string, language: string): (r: seq<string>)
    ensures forall i :: 0 <= i < |r| ==> r[i] != [] && IsStripped(r[i])
  {
    MapSeq(Strip, Filter(Split(IsHindi(language), text), NonBlank))
  }

  /** No sentence holds a delimiter of the language's class. */
  lemma SentencesFree(text: string, language: string)
    ensures var r := SplitSentences(text, language);
      forall i :: 0 <= i < |r| ==> Free(IsHindi(language), r[i])
  {
    var h := IsHindi(language);
    var pieces := Split(h, text);
    var kept := Filter(pieces, NonBlank);
    var r := SplitSentences(text, language);
    forall i | 0 <= i < |r| ensures Free(h, r[i]) {
      assert kept[i] in pieces;
      StripKeepsCharsOf(kept[i], c => !IsDelim(h, c));
    }
  }

  /** A delimiter-free stretch `a`, one mark `c`, and a rest not starting with one. */
  lemma SplitSentence(hindi: bool, a: string, c: char, b: string)
    requires Free(hindi, a) && IsDelim(hindi, c) && (b == [] || !IsDelim(hindi, b[0]))
    ensures Split(hindi, a + [c] + b) == [a] + Split(hindi, b)
  {
    var s := a + [c] + b;
    assert s[|a|] == c && s[..|a|] == a && s[|a| + 1..] == b;
    FirstDelimAt(hindi, s, |a|);
    assert DropRun(hindi, b) == b;
  }

  lemma FirstDelimAt(hindi: bool, s: string, n: nat)
    requires n < |s| && Free(hindi, s[..n]) && IsDelim(hindi, s[n])
    ensures DelimIndex(hindi, s) == n
  {
  }
}
