/** `chunk_sentences_phase1.py`: entries whose English and Hindi sentence counts agree
    are cut into pairs of three-sentence chunks; the others are recorded for the
    model-based alignment of phase 2. Reading and writing the JSON Lines files and
    the console report are not part of this model. */
module Phase1 {
  import opened Wrappers
  import opened Sequences
  import opened Strings
  import opened SentenceSplit

  /** One line of the input: its `english` and `hindi` texts. */
  datatype Entry = Entry(english: string, hindi: string)

  /** A pair of chunks of a matched entry. */
  datatype MatchedChunk = MatchedChunk(english: string, hindi: string, sourceEntry: nat, sentenceCount: nat)

  /** An entry left for phase 2, with its 1-based number and both counts. */
  datatype MismatchedEntry =
    MismatchedEntry(entryNum: nat, english: string, hindi: string, engSentences: nat, hinSentences: nat)

  datatype Stats = Stats(totalEntries: nat, matched: nat, mismatched: nat, totalChunksCreated: nat)

  /** The group size `process_phase1` asks for. */
  const GroupSize := 3

  /** `chunk_into_groups(sentences, chunk_size)`: the loop over
      `range(0, len(sentences), chunk_size)`. A size of 0 is the `ValueError` that
      `range` raises; a negative size leaves the range empty. */
  method ChunkIntoGroups(sentences: seq<string>, chunkSize: int) returns (r: Result<seq<seq<string>>, string>)
    ensures chunkSize == 0 <==> r.Err?
    ensures chunkSize < 0 ==> r == Ok([])
    ensures chunkSize > 0 ==> r == Ok(Groups(sentences, chunkSize))
  {
    if chunkSize == 0 {
      return Err("range() arg 3 must not be zero");
    }
    var chunks: seq<seq<string>> := [];
    if chunkSize > 0 {
      var n := |sentences|;
      var i := 0;
      while i < n
        invariant 0 <= i
        invariant Groups(sentences, chunkSize) == chunks + Groups(sentences[Min(i, n)..], chunkSize)
        decreases n - i
      {
        var chunk := sentences[i..Min(i + chunkSize, n)];
        GroupsStep(sentences, i, chunkSize);
        AppendAssoc(chunks, [chunk], Groups(sentences[Min(i + chunkSize, n)..], chunkSize));
        chunks := chunks + [chunk];
        i := i + chunkSize;
      }
      assert sentences[Min(i, n)..] == [];
      assert chunks + [] == chunks;
    }
    return Ok(chunks);
  }

  /** The groups are consecutive runs of `chunk_size` sentences, only the last one
      shorter, and together they are the sentences in order. */
  lemma GroupsPartition(sentences: seq<string>, k: nat)
    requires k >= 1
    ensures Flatten(Groups(sentences, k)) == sentences
    ensures forall j :: 0 <= j < |Groups(sentences, k)| ==> 1 <= |Groups(sentences, k)[j]| <= k
    ensures forall j :: 0 <= j < |Groups(sentences, k)| - 1 ==> |Groups(sentences, k)[j]| == k
    ensures |Groups(sentences, k)| == (|sentences| + k - 1) / k
  {
    GroupsFlatten(sentences, k);
    GroupsShape(sentences, k);
    GroupsCount(sentences, k);
  }

  function EnglishSentences(e: Entry): seq<string> {
    SplitEnglishSentences(e.english)
  }

  function HindiSentences(e: Entry): seq<string> {
    SplitHindiSentences(e.hindi)
  }

  /** The sentence counts agree. */
  predicate IsMatch(e: Entry) {
    |EnglishSentences(e)| == |HindiSentences(e)|
  }

  /** `zip(eng_chunks, hin_chunks)` turned into chunk records of entry `num`. */
  function Zip(eg: seq<seq<string>>, hg: seq<seq<string>>, num: nat): (r: seq<MatchedChunk>)
    ensures |r| == Min(|eg|, |hg|)
    decreases |eg|
  {
    if |eg| == 0 || |hg| == 0 then []
    else [MatchedChunk(JoinSpace(eg[0]), JoinSpace(hg[0]), num, |eg[0]|)] + Zip(eg[1..], hg[1..], num)
  }

  /** Record `j` pairs group `j` of each side. */
  lemma {:induction false} ZipIndex(eg: seq<seq<string>>, hg: seq<seq<string>>, num: nat, j: nat)
    requires j < Min(|eg|, |hg|)
    ensures Zip(eg, hg, num)[j] == MatchedChunk(JoinSpace(eg[j]), JoinSpace(hg[j]), num, |eg[j]|)
    decreases j
  {
    if j > 0 {
      ZipIndex(eg[1..], hg[1..], num, j - 1);
    }
  }

  /** The chunk records entry `num` adds. */
  function EntryChunks(e: Entry, num: nat): seq<MatchedChunk> {
    if IsMatch(e) then Zip(Groups(EnglishSentences(e), GroupSize), Groups(HindiSentences(e), GroupSize), num)
    else []
  }

  /** The record entry `num` adds to the mismatched list. */
  function EntryMismatch(e: Entry, num: nat): seq<MismatchedEntry> {
    if IsMatch(e) then []
    else [MismatchedEntry(num, e.english, e.hindi, |EnglishSentences(e)|, |HindiSentences(e)|)]
  }

  /** The chunk records of all entries, numbered from 1, in order. */
  function Matched(entries: seq<Entry>): seq<MatchedChunk>
    decreases |entries|
  {
    if |entries| == 0 then []
    else Matched(entries[..|entries| - 1]) + EntryChunks(entries[|entries| - 1], |entries|)
  }

  /** The mismatched records of all entries, numbered from 1, in order. */
  function Mismatched(entries: seq<Entry>): seq<MismatchedEntry>
    decreases |entries|
  {
    if |entries| == 0 then []
    else Mismatched(entries[..|entries| - 1]) + EntryMismatch(entries[|entries| - 1], |entries|)
  }

  /** How many entries match. */
  function MatchCount(entries: seq<Entry>): (r: nat)
    ensures r <= |entries|
    decreases |entries|
  {
    if |entries| == 0 then 0
    else MatchCount(entries[..|entries| - 1]) + (if IsMatch(entries[|entries| - 1]) then 1 else 0)
  }

  /** What one pass over the entries leaves in the statistics. */
  function StatsOf(entries: seq<Entry>): Stats {
    Stats(|entries|, MatchCount(entries), |entries| - MatchCount(entries), |Matched(entries)|)
  }

  /** The entry loop of `process_phase1` over the loaded entries. */
  method ProcessPhase1(entries: seq<Entry>)
    returns (matchedChunks: seq<MatchedChunk>, mismatchedEntries: seq<MismatchedEntry>, stats: Stats)
    ensures matchedChunks == Matched(entries)
    ensures mismatchedEntries == Mismatched(entries)
    ensures stats == StatsOf(entries)
  {
    matchedChunks := [];
    mismatchedEntries := [];
    stats := Stats(|entries|, 0, 0, 0);
    for n := 0 to |entries|
      invariant matchedChunks == Matched(entries[..n])
      invariant mismatchedEntries == Mismatched(entries[..n])
      invariant stats.totalEntries == |entries| && stats.matched == MatchCount(entries[..n])
      invariant stats.matched + stats.mismatched == n && stats.totalChunksCreated == |matchedChunks|
    {
      PrefixStep(entries, n);
      matchedChunks, mismatchedEntries, stats := ProcessEntry(entries[n], n + 1, matchedChunks, mismatchedEntries, stats);
    }
    assert entries[..|entries|] == entries;
  }

  /** The body of the entry loop for entry `i` (1-based): split both texts, then
      either pair the groups or record the mismatch, counting as it goes. */
  method ProcessEntry(entry: Entry, i: nat, matchedChunks: seq<MatchedChunk>,
                      mismatchedEntries: seq<MismatchedEntry>, stats: Stats)
    returns (matchedChunks': seq<MatchedChunk>, mismatchedEntries': seq<MismatchedEntry>, stats': Stats)
    ensures matchedChunks' == matchedChunks + EntryChunks(entry, i)
    ensures mismatchedEntries' == mismatchedEntries + EntryMismatch(entry, i)
    ensures stats'.totalEntries == stats.totalEntries
    ensures stats'.matched == stats.matched + (if IsMatch(entry) then 1 else 0)
    ensures stats'.mismatched == stats.mismatched + (if IsMatch(entry) then 0 else 1)
    ensures stats'.totalChunksCreated == stats.totalChunksCreated + |EntryChunks(entry, i)|
  {
    matchedChunks', mismatchedEntries', stats' := matchedChunks, mismatchedEntries, stats;
    var engSentences := SplitEnglishSentences(entry.english);
    var hinSentences := SplitHindiSentences(entry.hindi);
    if |engSentences| == |hinSentences| {
      stats' := stats'.(matched := stats'.matched + 1);
      var engChunks := ChunkIntoGroups(engSentences, GroupSize);
      var hinChunks := ChunkIntoGroups(hinSentences, GroupSize);
      var added;
      matchedChunks', added := AppendPairs(matchedChunks', engChunks.value, hinChunks.value, i);
      stats' := stats'.(totalChunksCreated := stats'.totalChunksCreated + added);
      assert EntryMismatch(entry, i) == [];
    } else {
      stats' := stats'.(mismatched := stats'.mismatched + 1);
      mismatchedEntries' := mismatchedEntries'
        + [MismatchedEntry(i, entry.english, entry.hindi, |engSentences|, |hinSentences|)];
      assert EntryChunks(entry, i) == [];
    }
  }

  /** Entry `n + 1` (1-based) adds its own records and count to those before it. */
  lemma PrefixStep(entries: seq<Entry>, n: nat)
    requires n < |entries|
    ensures Matched(entries[..n + 1]) == Matched(entries[..n]) + EntryChunks(entries[n], n + 1)
    ensures Mismatched(entries[..n + 1]) == Mismatched(entries[..n]) + EntryMismatch(entries[n], n + 1)
    ensures MatchCount(entries[..n + 1]) == MatchCount(entries[..n]) + (if IsMatch(entries[n]) then 1 else 0)
  {
    assert entries[..n + 1][..n] == entries[..n] && entries[..n + 1][n] == entries[n];
  }

  /** The inner loop over `zip(eng_chunks, hin_chunks)`: one record per pair, and the
      count of records added. */
  method AppendPairs(chunks: seq<MatchedChunk>, eg: seq<seq<string>>, hg: seq<seq<string>>, num: nat)
    returns (out: seq<MatchedChunk>, added: nat)
    ensures out == chunks + Zip(eg, hg, num)
    ensures added == |Zip(eg, hg, num)|
  {
    out := chunks;
    added := 0;
    var m := Min(|eg|, |hg|);
    for j := 0 to m
      invariant |out| == |chunks| + j && added == j
      invariant out[..|chunks|] == chunks
      invariant forall t :: 0 <= t < j ==> out[|chunks| + t] == MatchedChunk(JoinSpace(eg[t]), JoinSpace(hg[t]), num, |eg[t]|)
    {
      out := out + [MatchedChunk(JoinSpace(eg[j]), JoinSpace(hg[j]), num, |eg[j]|)];
      added := added + 1;
    }
    var z := Zip(eg, hg, num);
    assert out == chunks + z by {
      forall t | 0 <= t < |out| ensures out[t] == (chunks + z)[t] {
        if t < |chunks| {
          assert out[t] == out[..|chunks|][t];
        } else {
          ZipIndex(eg, hg, num, t - |chunks|);
        }
      }
    }
  }

  /** Every entry is counted once, as matched or as mismatched, and the mismatched
      count is the length of the mismatched list. */
  lemma {:induction false} CountsAddUp(entries: seq<Entry>)
    ensures StatsOf(entries).matched + StatsOf(entries).mismatched == StatsOf(entries).totalEntries
    ensures StatsOf(entries).mismatched == |Mismatched(entries)|
    ensures StatsOf(entries).totalChunksCreated == |Matched(entries)|
    decreases |entries|
  {
    if |entries| > 0 {
      CountsAddUp(entries[..|entries| - 1]);
    }
  }

  /** Pair `j` of an entry whose sides have the sentences `en` and `hn`: sentences
      `3j` up to `3j+3` (or the end) of each side, and the size of that English group. */
  function ChunkPair(en: seq<string>, hn: seq<string>, j: nat, num: nat): MatchedChunk
    requires j * GroupSize < |en| == |hn|
  {
    var lo := j * GroupSize;
    var hi := Min(lo + GroupSize, |en|);
    MatchedChunk(JoinSpace(en[lo..hi]), JoinSpace(hn[lo..hi]), num, hi - lo)
  }

  /** A matched entry of `n` sentences per side yields ceil(n/3) pairs, and pair `j`
      joins the same run of sentences on both sides. */
  lemma MatchedEntryChunks(e: Entry, num: nat, en: seq<string>, hn: seq<string>)
    requires en == EnglishSentences(e) && hn == HindiSentences(e) && |en| == |hn|
    ensures |EntryChunks(e, num)| == (|en| + GroupSize - 1) / GroupSize
    ensures forall j :: 0 <= j < |EntryChunks(e, num)| ==>
      j * GroupSize < |en| && EntryChunks(e, num)[j] == ChunkPair(en, hn, j, num)
  {
    var z := Zip(Groups(en, GroupSize), Groups(hn, GroupSize), num);
    assert EntryChunks(e, num) == z;
    GroupsCount(en, GroupSize);
    GroupsCount(hn, GroupSize);
    forall j | 0 <= j < |z| ensures j * GroupSize < |en| && z[j] == ChunkPair(en, hn, j, num) {
      ZipAt(en, hn, num, j);
    }
  }

  lemma ZipAt(en: seq<string>, hn: seq<string>, num: nat, j: nat)
    requires |en| == |hn| && j < |Zip(Groups(en, GroupSize), Groups(hn, GroupSize), num)|
    ensures j * GroupSize < |en|
    ensures Zip(Groups(en, GroupSize), Groups(hn, GroupSize), num)[j] == ChunkPair(en, hn, j, num)
  {
    var eg := Groups(en, GroupSize);
    var hg := Groups(hn, GroupSize);
    GroupsAt(en, GroupSize, j);
    GroupsAt(hn, GroupSize, j);
    ZipIndex(eg, hg, num, j);
  }

  /** Chunk record `c` names matched entry `c.sourceEntry` (1-based) and holds one to
      three sentences. */
  predicate FromMatchedEntry(entries: seq<Entry>, c: MatchedChunk) {
    1 <= c.sourceEntry <= |entries| && IsMatch(entries[c.sourceEntry - 1]) && 1 <= c.sentenceCount <= GroupSize
  }

  /** Each chunk record comes from a matched entry, and the records appear in entry
      order. */
  lemma {:induction false} MatchedSources(entries: seq<Entry>)
    ensures forall k :: 0 <= k < |Matched(entries)| ==> FromMatchedEntry(entries, Matched(entries)[k])
    ensures forall k, l :: 0 <= k < l < |Matched(entries)| ==>
      Matched(entries)[k].sourceEntry <= Matched(entries)[l].sourceEntry
    decreases |entries|
  {
    if |entries| > 0 {
      var n := |entries|;
      var init := entries[..n - 1];
      var e := entries[n - 1];
      MatchedSources(init);
      var mi := Matched(init);
      var own := EntryChunks(e, n);
      var ms := Matched(entries);
      assert ms == mi + own;
      OwnChunks(entries, e, n);
      SourcesStep(entries, mi, own, ms);
    }
  }

  /** The inductive step of `MatchedSources`, on the three lists themselves. */
  lemma SourcesStep(entries: seq<Entry>, mi: seq<MatchedChunk>, own: seq<MatchedChunk>, ms: seq<MatchedChunk>)
    requires |entries| > 0 && ms == mi + own
    requires forall k :: 0 <= k < |mi| ==> FromMatchedEntry(entries[..|entries| - 1], mi[k])
    requires forall k, l :: 0 <= k < l < |mi| ==> mi[k].sourceEntry <= mi[l].sourceEntry
    requires forall k :: 0 <= k < |own| ==> FromMatchedEntry(entries, own[k]) && own[k].sourceEntry == |entries|
    ensures forall k :: 0 <= k < |ms| ==> FromMatchedEntry(entries, ms[k])
    ensures forall k, l :: 0 <= k < l < |ms| ==> ms[k].sourceEntry <= ms[l].sourceEntry
  {
    var init := entries[..|entries| - 1];
    forall k | 0 <= k < |ms| ensures FromMatchedEntry(entries, ms[k]) {
      if k < |mi| {
        assert ms[k] == mi[k];
        PrefixEntry(entries, mi[k].sourceEntry - 1);
      } else {
        assert ms[k] == own[k - |mi|];
      }
    }
    forall k, l | 0 <= k < l < |ms| ensures ms[k].sourceEntry <= ms[l].sourceEntry {
      if l < |mi| {
        assert ms[k] == mi[k] && ms[l] == mi[l];
      } else if k < |mi| {
        assert ms[k] == mi[k] && FromMatchedEntry(init, mi[k]);
        assert ms[l] == own[l - |mi|];
      } else {
        assert ms[k] == own[k - |mi|] && ms[l] == own[l - |mi|];
      }
    }
  }

  /** The records of the last entry name it and hold one to three sentences. */
  lemma OwnChunks(entries: seq<Entry>, e: Entry, n: nat)
    requires n == |entries| && n > 0 && e == entries[n - 1]
    ensures forall k :: 0 <= k < |EntryChunks(e, n)| ==>
      FromMatchedEntry(entries, EntryChunks(e, n)[k]) && EntryChunks(e, n)[k].sourceEntry == n
  {
    if IsMatch(e) {
      var eg := Groups(EnglishSentences(e), GroupSize);
      var z := Zip(eg, Groups(HindiSentences(e), GroupSize), n);
      assert EntryChunks(e, n) == z;
      GroupsShape(EnglishSentences(e), GroupSize);
      forall k | 0 <= k < |z| ensures FromMatchedEntry(entries, z[k]) && z[k].sourceEntry == n {
        ZipIndex(eg, Groups(HindiSentences(e), GroupSize), n, k);
        assert z[k].sourceEntry == n && z[k].sentenceCount == |eg[k]|;
        assert 1 <= |eg[k]| <= GroupSize;
      }
    }
  }

  lemma PrefixEntry(entries: seq<Entry>, j: nat)
    requires j < |entries| - 1
    ensures entries[..|entries| - 1][j] == entries[j]
  {
  }

  /** Mismatched record `m` is entry `m.entryNum` (1-based) with its texts and both
      counts, and the counts differ. */
  predicate RecordsEntry(entries: seq<Entry>, m: MismatchedEntry) {
    && 1 <= m.entryNum <= |entries|
    && var e := entries[m.entryNum - 1];
       && !IsMatch(e) && m.english == e.english && m.hindi == e.hindi
       && m.engSentences == |EnglishSentences(e)| && m.hinSentences == |HindiSentences(e)|
  }

  /** Every mismatched record describes its entry; the records are in strictly
      increasing entry order and there is one for every entry that does not match. */
  lemma {:induction false} MismatchedRecords(entries: seq<Entry>)
    ensures forall k :: 0 <= k < |Mismatched(entries)| ==> RecordsEntry(entries, Mismatched(entries)[k])
    ensures forall k, l :: 0 <= k < l < |Mismatched(entries)| ==>
      Mismatched(entries)[k].entryNum < Mismatched(entries)[l].entryNum
    ensures |Mismatched(entries)| == |entries| - MatchCount(entries)
    decreases |entries|
  {
    if |entries| > 0 {
      var n := |entries|;
      var init := entries[..n - 1];
      var e := entries[n - 1];
      MismatchedRecords(init);
      var mi := Mismatched(init);
      var own := EntryMismatch(e, n);
      var ms := Mismatched(entries);
      assert ms == mi + own;
      OwnRecord(entries, e, n);
      RecordsStep(entries, mi, own, ms);
    }
  }

  /** The inductive step of `MismatchedRecords`, on the three lists themselves. */
  lemma RecordsStep(entries: seq<Entry>, mi: seq<MismatchedEntry>, own: seq<MismatchedEntry>, ms: seq<MismatchedEntry>)
    requires |entries| > 0 && ms == mi + own
    requires forall k :: 0 <= k < |mi| ==> RecordsEntry(entries[..|entries| - 1], mi[k])
    requires forall k, l :: 0 <= k < l < |mi| ==> mi[k].entryNum < mi[l].entryNum
    requires |own| <= 1 && forall k :: 0 <= k < |own| ==> RecordsEntry(entries, own[k]) && own[k].entryNum == |entries|
    ensures forall k :: 0 <= k < |ms| ==> RecordsEntry(entries, ms[k])
    ensures forall k, l :: 0 <= k < l < |ms| ==> ms[k].entryNum < ms[l].entryNum
  {
    var init := entries[..|entries| - 1];
    forall k | 0 <= k < |ms| ensures RecordsEntry(entries, ms[k]) {
      if k < |mi| {
        assert ms[k] == mi[k];
        PrefixEntry(entries, mi[k].entryNum - 1);
      } else {
        assert ms[k] == own[k - |mi|];
      }
    }
    forall k, l | 0 <= k < l < |ms| ensures ms[k].entryNum < ms[l].entryNum {
      if l < |mi| {
        assert ms[k] == mi[k] && ms[l] == mi[l];
      } else {
        assert k < |mi| && ms[k] == mi[k] && RecordsEntry(init, mi[k]);
        assert ms[l] == own[l - |mi|];
      }
    }
  }

  /** The record of the last entry, when there is one, names it. */
  lemma OwnRecord(entries: seq<Entry>, e: Entry, n: nat)
    requires n == |entries| && n > 0 && e == entries[n - 1]
    ensures |EntryMismatch(e, n)| <= 1
    ensures forall k :: 0 <= k < |EntryMismatch(e, n)| ==>
      RecordsEntry(entries, EntryMismatch(e, n)[k]) && EntryMismatch(e, n)[k].entryNum == n
  {
  }
}
