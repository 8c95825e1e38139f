/** `modules/aligner.py`: English and Hindi chunks paired by position. */
module Aligner {
  import opened Sequences

  /** `xs + [''] * (n - len(xs))`; Python's list repetition by a negative count gives
      the empty list, so nothing is added when `xs` is already long enough. */
  function Pad(xs: seq<string>, n: int): (r: seq<string>)
    ensures |r| == Max(|xs|, n)
    ensures forall i :: 0 <= i < |r| ==> r[i] == if i < |xs| then xs[i] else ""
  {
    xs + seq(if n > |xs| then n - |xs| else 0, _ => "")
  }

  /** `list(zip(a, b))`: as long as the shorter list. */
  function Zip(a: seq<string>, b: seq<string>): (r: seq<(string, string)>)
    ensures |r| == Min(|a|, |b|)
    ensures forall i :: 0 <= i < |r| ==> r[i] == (a[i], b[i])
  {
    seq(Min(|a|, |b|), i requires 0 <= i < Min(|a|, |b|) => (a[i], b[i]))
  }

  /** `align_chunks(eng_chunks, hin_chunks)`: one pair per position of the longer
      list, the missing side of a pair being `""`. */
  function AlignChunks(eng: seq<string>, hin: seq<string>): (r: seq<(string, string)>)
    ensures |r| == Max(|eng|, |hin|)
    ensures forall i :: 0 <= i < |r| ==>
      r[i] == (if i < |eng| then eng[i] else "", if i < |hin| then hin[i] else "")
  {
    var n := Max(|eng|, |hin|);
    Zip(Pad(eng, n), Pad(hin, n))
  }

  /** Lists of equal length are paired as they are: no padding, and the English
      sides are the English list. */
  lemma AlignEqualLengths(eng: seq<string>, hin: seq<string>)
    requires |eng| == |hin|
    ensures var r := AlignChunks(eng, hin);
      && |r| == |eng|
      && (forall i :: 0 <= i < |r| ==> r[i] == (eng[i], hin[i]))
      && MapSeq((p: (string, string)) => p.0, r) == eng
      && MapSeq((p: (string, string)) => p.1, r) == hin
  {
  }

  /** The example of three English and two Hindi chunks. */
  lemma ThreeAndTwo()
    ensures var r := AlignChunks(["English 1", "English 2", "English 3"], ["Hindi 1", "Hindi 2"]);
      |r| == 3 && r[2].1 == ""
  {
  }
}
