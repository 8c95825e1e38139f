/** `modules/chunker.py`: sentences grouped into chunks of `chunk_size`, each chunk
    the space-join of its sentences. */
module Chunker {
  import opened Wrappers
  import opened Sequences
  import opened Strings

  /** `config.CHUNK_SIZE`, used when no size is given. */
  const DefaultChunkSize := 3

  /** The chunks for a positive size: one per group of `k` consecutive sentences. */
  function Chunks(sentences: seq<string>, k: nat): (r: seq<string>)
    requires k >= 1
    ensures |r| == (|sentences| + k - 1) / k
  {
    GroupsCount(sentences, k);
    MapSeq(JoinSpace, Groups(sentences, k))
  }

  /** `create_chunks(sentences, chunk_size)`: the loop over
      `range(0, len(sentences), chunk_size)`. A size of 0 is the `ValueError` that
      `range` raises; a negative size makes the range, and so the result, empty. */
  method CreateChunks(sentences: seq<string>, chunkSize: Option<int>)
    returns (r: Result<seq<string>, string>)
    ensures var k := chunkSize.GetOr(DefaultChunkSize);
      && (k == 0 <==> r.Err?)
      && (k < 0 ==> r == Ok([]))
      && (k > 0 ==> r == Ok(Chunks(sentences, k)))
  {
    var k := chunkSize.GetOr(DefaultChunkSize);
    if k == 0 {
      return Err("range() arg 3 must not be zero");
    }
    var chunks: seq<string> := [];
    if k > 0 {
      var n := |sentences|;
      var i := 0;
      while i < n
        invariant 0 <= i
        invariant Chunks(sentences, k) == chunks + Chunks(sentences[Min(i, n)..], k)
        decreases n - i
      {
        var piece := sentences[i..Min(i + k, n)];
        RestStep(sentences, i, k);
        AppendAssoc(chunks, [JoinSpace(piece)], Chunks(sentences[Min(i + k, n)..], k));
        chunks := chunks + [JoinSpace(piece)];
        i := i + k;
      }
      assert sentences[Min(i, n)..] == [];
      assert Chunks([], k) == [];
      assert chunks + [] == chunks;
    }
    return Ok(chunks);
  }

  /** One step of the loop: the groups of a non-empty suffix are its first `k`
      elements (or all of it) followed by the groups of what is left. */
  lemma RestStep(sentences: seq<string>, i: nat, k: nat)
    requires k >= 1 && i < |sentences|
    ensures var n := |sentences|;
      Chunks(sentences[i..], k)
        == [JoinSpace(sentences[i..Min(i + k, n)])] + Chunks(sentences[Min(i + k, n)..], k)
  {
    var n := |sentences|;
    var rest := sentences[i..];
    var piece := sentences[i..Min(i + k, n)];
    var next := sentences[Min(i + k, n)..];
    if n - i > k {
      assert rest[..k] == piece && rest[k..] == next;
      assert Groups(rest, k) == [piece] + Groups(next, k);
    } else {
      assert piece == rest && next == [];
      assert Groups(rest, k) == [piece] + Groups(next, k);
    }
    MapSeqAppend(JoinSpace, [piece], Groups(next, k));
  }

  /** Chunk `j` joins `sentences[j*k : (j+1)*k]`. */
  lemma ChunkAt(sentences: seq<string>, k: nat, j: nat)
    requires k >= 1 && j < |Chunks(sentences, k)|
    ensures j * k < |sentences|
    ensures Chunks(sentences, k)[j] == JoinSpace(sentences[j * k .. Min(j * k + k, |sentences|)])
  {
    GroupsAt(sentences, k, j);
  }

  /** Every chunk but the last joins exactly `k` sentences, the last joins 1 to `k`,
      and together they use every sentence once, in order. */
  lemma ChunkSentences(sentences: seq<string>, k: nat)
    requires k >= 1
    ensures var gs := Groups(sentences, k);
      && Chunks(sentences, k) == MapSeq(JoinSpace, gs)
      && Flatten(gs) == sentences
      && (forall j :: 0 <= j < |gs| ==> 1 <= |gs[j]| <= k)
      && (forall j :: 0 <= j < |gs| - 1 ==> |gs[j]| == k)
  {
    GroupsFlatten(sentences, k);
    GroupsShape(sentences, k);
  }

  /** The example of five sentences in chunks of two. */
  lemma FiveInTwos()
    ensures var c := Chunks(["One.", "Two.", "Three.", "Four.", "Five."], 2);
      |c| == 3 && c[0] == "One. Two."
  {
    var xs := ["One.", "Two.", "Three.", "Four.", "Five."];
    ChunkAt(xs, 2, 0);
    assert xs[0..2] == ["One.", "Two."];
  }
}
