/** `rewat_pipeline.py`: the PDF-to-CSV orchestrator. Each page of an English/Hindi PDF
    pair becomes sentence chunks aligned by index; every aligned pair is cleaned,
    checked and, when it passes, verified and written as one row. The PDF reader, the
    LLM verifier, the float quality score and the regex extraction are parameters
    (the collaborators); the thread pool is a completion order. */
module Rewat {
  import opened Wrappers
  import opened Sequences
  import opened Strings
  import opened TextCleaner
  import opened QualityFilter
  import opened Splitter
  import opened Chunker
  import opened Aligner

  /** What `process_page` calls but this module does not model: the passes of the two
      cleaners, `llm_map(eng, hin)` (the verified Hindi and the flags),
      `calculate_quality_score`, the JSON text of `extract_patterns`, and
      `config.REGEX_ON_VERIFIED`. */
  datatype Collaborators = Collaborators(
    english: Passes, hindi: Passes,
    llmMap: (string, string) -> (string, string),
    score: (string, string) -> real,
    regexMatches: string -> string,
    regexOnVerified: bool)

  /** The arguments a written row is built from (`create_row(...)`); its alignment
      method is always `'index'`. */
  datatype Row = Row(docId: string, page: int, chunkId: nat, english: string,
                     hindiRaw: string, hindiVerified: string, regexMatches: string,
                     llmFlags: string, qualityScore: real, qualityLabel: string)

  /** What the loop does with one aligned pair. */
  datatype Decision =
    | EnglishInvalid
    | HindiInvalid
    | PairInvalid(verdict: Verdict)
    | Accepted(row: Row)

  function CleanEnglish(c: Collaborators, raw: string): string {
    CleanChunk(raw, "english", c.english, c.hindi)
  }

  function CleanHindi(c: Collaborators, raw: string): string {
    CleanChunk(raw, "hindi", c.english, c.hindi)
  }

  /** `hin_chunk_verified if hin_chunk_verified else hin_chunk`. */
  function FinalHindi(verified: string, hin: string): (r: string)
    ensures |verified| > 0 ==> r == verified
    ensures |verified| == 0 ==> r == hin
  {
    if |verified| > 0 then verified else hin
  }

  /** One iteration of the loop on pair `chunkId` of page `pageNum`: the English
      check, then the Hindi check, then the pair check, each rejecting on its own;
      only a pair passing all three is verified and becomes a row. */
  function Decide(c: Collaborators, docId: string, pageNum: nat, chunkId: nat,
                  rawEng: string, rawHin: string): (d: Decision)
    ensures var eng, hin := CleanEnglish(c, rawEng), CleanHindi(c, rawHin);
      && (d.EnglishInvalid? <==> !IsChunkValid(eng, "english"))
      && (d.HindiInvalid? <==> IsChunkValid(eng, "english") && !IsChunkValid(hin, "hindi"))
      && (d.PairInvalid? <==> IsChunkValid(eng, "english") && IsChunkValid(hin, "hindi") && !IsValid(eng, hin))
      && (d.Accepted? <==> IsChunkValid(eng, "english") && IsChunkValid(hin, "hindi") && IsValid(eng, hin))
    ensures d.Accepted? ==>
      var eng, hin := CleanEnglish(c, rawEng), CleanHindi(c, rawHin);
      var verified := c.llmMap(eng, hin).0;
      && d.row.docId == docId && d.row.page == pageNum + 1 && d.row.chunkId == chunkId
      && d.row.english == eng && d.row.hindiRaw == hin
      && d.row.hindiVerified == FinalHindi(verified, hin)
      && d.row.qualityScore == c.score(eng, FinalHindi(verified, hin))
  {
    var eng := CleanEnglish(c, rawEng);
    var hin := CleanHindi(c, rawHin);
    if !IsChunkValid(eng, "english") then EnglishInvalid
    else if !IsChunkValid(hin, "hindi") then HindiInvalid
    else if !IsValid(eng, hin) then PairInvalid(ValidateChunkPair(eng, hin))
    else
      var (verified, flags) := c.llmMap(eng, hin);
      var finalHin := FinalHindi(verified, hin);
      var score := c.score(eng, finalHin);
      var forRegex := if c.regexOnVerified && |verified| > 0 then verified else hin;
      Accepted(Row(docId, pageNum + 1, chunkId, eng, hin, finalHin, c.regexMatches(forRegex),
                   flags, score, LabelName(QualityLabel(score))))
  }

  /** The decision for every aligned pair of a page, by index. */
  function Decisions(c: Collaborators, docId: string, pageNum: nat,
                     pairs: seq<(string, string)>): (ds: seq<Decision>)
    ensures |ds| == |pairs|
    ensures forall i :: 0 <= i < |pairs| ==> ds[i] == Decide(c, docId, pageNum, i, pairs[i].0, pairs[i].1)
  {
    seq(|pairs|, i requires 0 <= i < |pairs| => Decide(c, docId, pageNum, i, pairs[i].0, pairs[i].1))
  }

  /** The rows the accepted pairs become, in order. */
  function AcceptedRows(ds: seq<Decision>): seq<Row>
    decreases |ds|
  {
    if |ds| == 0 then []
    else AcceptedRows(ds[..|ds| - 1]) + (if ds[|ds| - 1].Accepted? then [ds[|ds| - 1].row] else [])
  }

  /** How many pairs were rejected. */
  function RejectedCount(ds: seq<Decision>): nat
    decreases |ds|
  {
    if |ds| == 0 then 0
    else RejectedCount(ds[..|ds| - 1]) + (if ds[|ds| - 1].Accepted? then 0 else 1)
  }

  /** Every pair is either rejected or written: the two counts add up to the number of
      pairs. */
  lemma {:induction false} Balance(ds: seq<Decision>)
    ensures |AcceptedRows(ds)| + RejectedCount(ds) == |ds|
    decreases |ds|
  {
    if |ds| > 0 {
      Balance(ds[..|ds| - 1]);
    }
  }

  /** Each accepted decision's row carries its own index. */
  predicate Indexed(ds: seq<Decision>) {
    forall i :: 0 <= i < |ds| && ds[i].Accepted? ==> ds[i].row.chunkId == i
  }

  lemma DecisionsIndexed(c: Collaborators, docId: string, pageNum: nat, pairs: seq<(string, string)>)
    ensures Indexed(Decisions(c, docId, pageNum, pairs))
  {
    var ds := Decisions(c, docId, pageNum, pairs);
    forall i | 0 <= i < |ds| && ds[i].Accepted? ensures ds[i].row.chunkId == i {
      assert ds[i] == Decide(c, docId, pageNum, i, pairs[i].0, pairs[i].1);
    }
  }

  /** The rows are the accepted decisions in index order, each written once: row `j`
      is the decision at its own `chunk_id`, the ids strictly increase, and every
      accepted pair is among the rows. */
  lemma RowsOfAccepted(ds: seq<Decision>)
    requires Indexed(ds)
    ensures var rows := AcceptedRows(ds);
      && (forall j :: 0 <= j < |rows| ==> rows[j].chunkId < |ds| && ds[rows[j].chunkId] == Accepted(rows[j]))
      && (forall j, k :: 0 <= j < k < |rows| ==> rows[j].chunkId < rows[k].chunkId)
      && (forall i :: 0 <= i < |ds| && ds[i].Accepted? ==> ds[i].row in rows)
  {
    var rows := AcceptedRows(ds);
    forall j | 0 <= j < |rows| ensures rows[j].chunkId < |ds| && ds[rows[j].chunkId] == Accepted(rows[j]) {
      RowOrigin(ds, j);
    }
    forall j, k | 0 <= j < k < |rows| ensures rows[j].chunkId < rows[k].chunkId {
      RowsIncrease(ds, j, k);
    }
    forall i | 0 <= i < |ds| && ds[i].Accepted? ensures ds[i].row in rows {
      RowWritten(ds, i);
    }
  }

  lemma IndexedPrefix(ds: seq<Decision>)
    requires |ds| > 0 && Indexed(ds)
    ensures Indexed(ds[..|ds| - 1])
  {
    var init := ds[..|ds| - 1];
    forall i | 0 <= i < |init| && init[i].Accepted? ensures init[i].row.chunkId == i {
      assert init[i] == ds[i];
    }
  }

  /** Row `j` is the accepted decision at its own `chunk_id`. */
  lemma {:induction false} RowOrigin(ds: seq<Decision>, j: nat)
    requires Indexed(ds) && j < |AcceptedRows(ds)|
    ensures AcceptedRows(ds)[j].chunkId < |ds| && ds[AcceptedRows(ds)[j].chunkId] == Accepted(AcceptedRows(ds)[j])
    decreases |ds|
  {
    var init := ds[..|ds| - 1];
    var before := AcceptedRows(init);
    var row := AcceptedRows(ds)[j];
    if j < |before| {
      IndexedPrefix(ds);
      RowOrigin(init, j);
      assert row == before[j];
      assert init[row.chunkId] == ds[row.chunkId];
    } else {
      assert row == ds[|ds| - 1].row;
    }
  }

  /** The rows' `chunk_id`s strictly increase. */
  lemma {:induction false} RowsIncrease(ds: seq<Decision>, j: nat, k: nat)
    requires Indexed(ds) && j < k < |AcceptedRows(ds)|
    ensures AcceptedRows(ds)[j].chunkId < AcceptedRows(ds)[k].chunkId
    decreases |ds|
  {
    var init := ds[..|ds| - 1];
    var before := AcceptedRows(init);
    IndexedPrefix(ds);
    assert AcceptedRows(ds)[j] == before[j];
    if k < |before| {
      RowsIncrease(init, j, k);
      assert AcceptedRows(ds)[k] == before[k];
    } else {
      RowOrigin(init, j);
      assert AcceptedRows(ds)[k] == ds[|ds| - 1].row;
    }
  }

  /** Every accepted decision's row is written. */
  lemma {:induction false} RowWritten(ds: seq<Decision>, i: nat)
    requires i < |ds| && ds[i].Accepted?
    ensures ds[i].row in AcceptedRows(ds)
    decreases |ds|
  {
    var init := ds[..|ds| - 1];
    if i < |ds| - 1 {
      assert init[i] == ds[i];
      RowWritten(init, i);
    }
  }

  /** `"Page {page_num + 1}: {e}"`. */
  function PageError(pageNum: nat, message: string): string {
    "Page " + NatToString(pageNum + 1) + ": " + message
  }

  datatype PageStatus = PageSuccess | PageFailed

  /** The dictionary `process_page` returns, less `avg_quality` (a float average). */
  datatype PageResult = PageResult(page: nat, status: PageStatus, chunks: nat, rejected: nat,
                                   error: Option<string>)

  /** The `except` branch: nothing counted, and the message prefixed with the page. */
  function Failed(pageNum: nat, message: string): (r: PageResult)
    ensures r.status == PageFailed && r.chunks == 0 && r.rejected == 0 && r.page == pageNum
    ensures r.error == Some(PageError(pageNum, message))
  {
    PageResult(pageNum, PageFailed, 0, 0, Some(PageError(pageNum, message)))
  }

  /** Steps 2-4: sentences, chunks of the default size, and pairs by index. */
  function PagePairs(engText: string, hinText: string): seq<(string, string)> {
    AlignChunks(Chunks(SplitSentences(engText, "english"), DefaultChunkSize),
                Chunks(SplitSentences(hinText, "hindi"), DefaultChunkSize))
  }

  /** The first accepted pair whose row write raises. */
  function FirstWriteFailure(ds: seq<Decision>, writeError: nat -> Option<string>): (r: Option<nat>)
    ensures r.Some? ==> r.value < |ds| && ds[r.value].Accepted? && writeError(r.value).Some?
    ensures r.Some? ==> forall i :: 0 <= i < r.value && ds[i].Accepted? ==> writeError(i).None?
    ensures r.None? <==> forall i :: 0 <= i < |ds| && ds[i].Accepted? ==> writeError(i).None?
    decreases |ds|
  {
    if |ds| == 0 then None
    else
      var init := ds[..|ds| - 1];
      match FirstWriteFailure(init, writeError)
      case Some(k) => Some(k)
      case None =>
        if ds[|ds| - 1].Accepted? && writeError(|ds| - 1).Some? then Some(|ds| - 1) else None
  }

  /** `process_page(page_num, ...)`, given what `extract_page_text` gives for each PDF
      and which row writes raise (`writeError(chunk_id)`): the result and the rows
      appended to the CSV. A failure after some rows were written leaves them
      written. */
  function PageOutcome(c: Collaborators, docId: string, pageNum: nat,
                       engText: Result<string, string>, hinText: Result<string, string>,
                       writeError: nat -> Option<string>): (r: (PageResult, seq<Row>))
    ensures r.0.page == pageNum
    ensures r.0.status == PageSuccess <==> r.0.error.None?
    ensures r.0.status == PageFailed ==> r.0.chunks == 0 && r.0.rejected == 0
  {
    if engText.Err? then (Failed(pageNum, engText.error), [])
    else if hinText.Err? then (Failed(pageNum, hinText.error), [])
    else
      var ds := Decisions(c, docId, pageNum, PagePairs(engText.value, hinText.value));
      PairsOutcomeShape(ds, pageNum, writeError);
      PairsOutcome(ds, pageNum, writeError)
  }

  /** A loop that completes counts every pair once, as written or as rejected, and
      writes exactly the accepted rows; one that fails counts nothing and has written
      a prefix of those rows. */
  lemma PairsOutcomeShape(ds: seq<Decision>, pageNum: nat, writeError: nat -> Option<string>)
    ensures var (r, written) := PairsOutcome(ds, pageNum, writeError);
      && r.page == pageNum
      && (r.status == PageSuccess <==> r.error.None?)
      && (r.status == PageSuccess ==>
            && r.chunks + r.rejected == |ds| && written == AcceptedRows(ds) && r.chunks == |written|)
      && (r.status == PageFailed ==> r.chunks == 0 && r.rejected == 0)
      && |written| <= |AcceptedRows(ds)| && written == AcceptedRows(ds)[..|written|]
  {
    Balance(ds);
    match FirstWriteFailure(ds, writeError)
    case None =>
    case Some(k) =>
      assert ds == ds[..k] + ds[k..];
      RowsAppend(ds[..k], ds[k..]);
  }

  /** The same for a whole page, whose extraction can also fail first. */
  lemma PageOutcomeShape(c: Collaborators, docId: string, pageNum: nat,
                         engText: Result<string, string>, hinText: Result<string, string>,
                         writeError: nat -> Option<string>)
    ensures var (r, written) := PageOutcome(c, docId, pageNum, engText, hinText, writeError);
      && r.page == pageNum
      && (r.status == PageSuccess <==> r.error.None?)
      && (r.status == PageSuccess ==>
            var pairs := PagePairs(engText.value, hinText.value);
            && r.chunks + r.rejected == |pairs|
            && written == AcceptedRows(Decisions(c, docId, pageNum, pairs))
            && r.chunks == |written|)
      && (r.status == PageFailed ==> r.chunks == 0 && r.rejected == 0)
      && (engText.Err? || hinText.Err? ==> r.status == PageFailed && written == [])
  {
    if engText.Ok? && hinText.Ok? {
      var ds := Decisions(c, docId, pageNum, PagePairs(engText.value, hinText.value));
      PairsOutcomeShape(ds, pageNum, writeError);
    }
  }

  lemma {:induction false} RowsAppend(a: seq<Decision>, b: seq<Decision>)
    ensures AcceptedRows(a + b) == AcceptedRows(a) + AcceptedRows(b)
    decreases |b|
  {
    if |b| == 0 {
      assert a + b == a;
    } else {
      var init := b[..|b| - 1];
      assert (a + b)[..|a + b| - 1] == a + init;
      RowsAppend(a, init);
    }
  }

  /** Every written row lies on page `page_num + 1`, in the order of its pair, and
      holds the verified Hindi when there is one and the cleaned Hindi otherwise. */
  lemma WrittenRows(c: Collaborators, docId: string, pageNum: nat, pairs: seq<(string, string)>)
    ensures var ds := Decisions(c, docId, pageNum, pairs);
      var rows := AcceptedRows(ds);
      forall j :: 0 <= j < |rows| ==>
        var i := rows[j].chunkId;
        && i < |pairs| && rows[j].page == pageNum + 1 && rows[j].docId == docId
        && rows[j].english == CleanEnglish(c, pairs[i].0)
        && rows[j].hindiRaw == CleanHindi(c, pairs[i].1)
        && rows[j].hindiVerified
           == FinalHindi(c.llmMap(CleanEnglish(c, pairs[i].0), CleanHindi(c, pairs[i].1)).0,
                         CleanHindi(c, pairs[i].1))
  {
    var ds := Decisions(c, docId, pageNum, pairs);
    DecisionsIndexed(c, docId, pageNum, pairs);
    RowsOfAccepted(ds);
  }

  /** The loop's running state after `i` pairs. */
  ghost predicate LoopState(ds: seq<Decision>, i: nat, processed: nat, rejected: nat,
                            written: seq<Row>, writeError: nat -> Option<string>)
    requires i <= |ds|
  {
    && written == AcceptedRows(ds[..i])
    && processed == |written|
    && rejected == RejectedCount(ds[..i])
    && FirstWriteFailure(ds[..i], writeError).None?
  }

  /** `process_page(...)`: the extraction, the pipeline to aligned pairs, and the loop
      over them. */
  method ProcessPage(c: Collaborators, docId: string, pageNum: nat,
                     engText: Result<string, string>, hinText: Result<string, string>,
                     writeError: nat -> Option<string>)
    returns (result: PageResult, written: seq<Row>)
    ensures (result, written) == PageOutcome(c, docId, pageNum, engText, hinText, writeError)
  {
    if engText.Err? {
      return Failed(pageNum, engText.error), [];
    }
    if hinText.Err? {
      return Failed(pageNum, hinText.error), [];
    }
    var engSentences := SplitSentences(engText.value, "english");
    var hinSentences := SplitSentences(hinText.value, "hindi");
    var engChunks := CreateChunks(engSentences, None);
    var hinChunks := CreateChunks(hinSentences, None);
    var pairs := AlignChunks(engChunks.value, hinChunks.value);
    assert pairs == PagePairs(engText.value, hinText.value);
    result, written := ProcessPairs(c, docId, pageNum, pairs, writeError);
  }

  /** What the loop over a page's pairs gives: the result and the rows written. */
  function PairsOutcome(ds: seq<Decision>, pageNum: nat, writeError: nat -> Option<string>): (PageResult, seq<Row>) {
    match FirstWriteFailure(ds, writeError)
    case None => (PageResult(pageNum, PageSuccess, |AcceptedRows(ds)|, RejectedCount(ds), None), AcceptedRows(ds))
    case Some(k) => (Failed(pageNum, writeError(k).value), AcceptedRows(ds[..k]))
  }

  /** Step 5, the loop over the aligned pairs, counting what is written and what is
      rejected; a row write that raises ends the page as failed. */
  method ProcessPairs(c: Collaborators, docId: string, pageNum: nat, pairs: seq<(string, string)>,
                      writeError: nat -> Option<string>)
    returns (result: PageResult, written: seq<Row>)
    ensures (result, written) == PairsOutcome(Decisions(c, docId, pageNum, pairs), pageNum, writeError)
  {
    ghost var ds := Decisions(c, docId, pageNum, pairs);
    written := [];
    var processed, rejected := 0, 0;
    for chunkId := 0 to |pairs|
      invariant LoopState(ds, chunkId, processed, rejected, written, writeError)
    {
      StepDecision(ds, chunkId, writeError);
      var d := Judge(c, docId, pageNum, chunkId, pairs[chunkId].0, pairs[chunkId].1);
      assert d == ds[chunkId];
      if !d.Accepted? {
        rejected := rejected + 1;
        continue;
      }
      if writeError(chunkId).Some? {
        FailureAt(ds, chunkId, writeError);
        return Failed(pageNum, writeError(chunkId).value), written;
      }
      written := written + [d.row];
      processed := processed + 1;
    }
    assert ds[..|pairs|] == ds;
    return PageResult(pageNum, PageSuccess, processed, rejected, None), written;
  }

  /** The body of one iteration up to the write: clean both sides, run the three
      checks in order, each `continue`-ing on failure, then verify and build the
      row. */
  method Judge(c: Collaborators, docId: string, pageNum: nat, chunkId: nat,
               rawEng: string, rawHin: string) returns (d: Decision)
    ensures d == Decide(c, docId, pageNum, chunkId, rawEng, rawHin)
  {
    var eng := CleanEnglish(c, rawEng);
    var hin := CleanHindi(c, rawHin);
    if !IsChunkValid(eng, "english") {
      return EnglishInvalid;
    }
    if !IsChunkValid(hin, "hindi") {
      return HindiInvalid;
    }
    var verdict := ValidateChunkPair(eng, hin);
    if !verdict.Pass? {
      return PairInvalid(verdict);
    }
    var (verified, flags) := c.llmMap(eng, hin);
    var finalHin := FinalHindi(verified, hin);
    var score := c.score(eng, finalHin);
    var forRegex := if c.regexOnVerified && |verified| > 0 then verified else hin;
    return Accepted(Row(docId, pageNum + 1, chunkId, eng, hin, finalHin, c.regexMatches(forRegex),
                        flags, score, LabelName(QualityLabel(score))));
  }

  /** The first failing write of a prefix's clean run is the first of the whole. */
  lemma FailureAt(ds: seq<Decision>, k: nat, writeError: nat -> Option<string>)
    requires k < |ds| && ds[k].Accepted? && writeError(k).Some?
    requires FirstWriteFailure(ds[..k], writeError).None?
    ensures FirstWriteFailure(ds, writeError) == Some(k)
  {
    forall i | 0 <= i < k && ds[i].Accepted? ensures writeError(i).None? {
      assert ds[..k][i] == ds[i];
    }
  }

  /** How one decision extends the loop's running values. */
  lemma StepDecision(ds: seq<Decision>, i: nat, writeError: nat -> Option<string>)
    requires i < |ds|
    ensures AcceptedRows(ds[..i + 1]) == AcceptedRows(ds[..i]) + (if ds[i].Accepted? then [ds[i].row] else [])
    ensures RejectedCount(ds[..i + 1]) == RejectedCount(ds[..i]) + (if ds[i].Accepted? then 0 else 1)
    ensures FirstWriteFailure(ds[..i], writeError).None? ==>
      FirstWriteFailure(ds[..i + 1], writeError)
        == (if ds[i].Accepted? && writeError(i).Some? then Some(i) else None)
  {
    assert ds[..i + 1][..i] == ds[..i];
  }

  // Pairing the input PDFs (find_matching_pdfs).

  /** Where an input points: one file, or a folder given by what its `*.pdf` glob
      lists, each entry as (file name, full path). */
  datatype Location = PdfFile(path: string) | PdfFolder(listing: seq<(string, string)>)

  /** One `(eng_pdf, hin_pdf, doc_id)` triple. */
  datatype PdfPair = PdfPair(english: string, hindi: string, docId: string)

  /** The cases that end the run with `sys.exit(1)`, in the order the script checks them. */
  datatype FindError = EnglishNotPdf | HindiNotPdf | NoEnglishPdfs | NoHindiPdfs | NoMatchingPairs | MixedInputs

  /** The last index of `ch` in `s`, as `str.rfind` finds it. */
  function LastIndex(s: string, ch: char): (r: Option<nat>)
    ensures r.Some? ==> r.value < |s| && s[r.value] == ch && forall j :: r.value < j < |s| ==> s[j] != ch
    ensures r.None? ==> forall j :: 0 <= j < |s| ==> s[j] != ch
    decreases |s|
  {
    if |s| == 0 then None
    else if s[|s| - 1] == ch then Some(|s| - 1)
    else LastIndex(s[..|s| - 1], ch)
  }

  /** `Path(p).name`: what follows the last `/`. */
  function BaseName(path: string): (r: string)
    ensures |r| <= |path| && r == path[|path| - |r|..]
    ensures forall j :: 0 <= j < |r| ==> r[j] != '/'
  {
    match LastIndex(path, '/')
    case Some(i) => path[i + 1..]
    case None => path
  }

  /** `Path(name).stem`: the name less its last suffix; a dot that starts or ends the
      name begins no suffix. */
  function Stem(name: string): (r: string)
    ensures |r| <= |name| && r == name[..|r|]
    ensures |r| < |name| ==> 0 < |r| < |name| - 1 && name[|r|] == '.'
                             && forall j :: |r| < j < |name| ==> name[j] != '.'
  {
    match LastIndex(name, '.')
    case Some(i) => if 0 < i < |name| - 1 then name[..i] else name
    case None => name
  }

  /** A file named `<stem>.pdf` has document id `<stem>`. */
  lemma StemOfPdfName(stem: string)
    requires |stem| > 0
    ensures Stem(stem + ".pdf") == stem
  {
    var name := stem + ".pdf";
    var r := LastIndex(name, '.');
    assert name[|stem|] == '.';
    assert r.Some? && r.value == |stem|;
  }

  /** `path.lower().endswith('.pdf')`. */
  predicate IsPdfPath(path: string) {
    |path| >= 4 && LowerAscii(path)[|path| - 4..] == ".pdf"
  }

  function NameOf(entry: (string, string)): string { entry.0 }

  /** `{f.name: str(f) for f in listing}`: the names listed, each mapped to its path
      (the last one listed, should a name repeat). */
  function DictOf(listing: seq<(string, string)>): (m: map<string, string>)
    ensures m.Keys == Elems(MapSeq(NameOf, listing))
    decreases |listing|
  {
    if |listing| == 0 then map[]
    else
      var init, last := listing[..|listing| - 1], listing[|listing| - 1];
      assert MapSeq(NameOf, listing) == MapSeq(NameOf, init) + [last.0];
      ElemsSnoc(MapSeq(NameOf, init), last.0);
      DictOf(init)[last.0 := last.1]
  }

  /** A name maps to the path of its last entry. */
  lemma {:induction false} DictOfLatest(listing: seq<(string, string)>, i: nat)
    requires i < |listing|
    requires forall j :: i < j < |listing| ==> listing[j].0 != listing[i].0
    ensures listing[i].0 in DictOf(listing) && DictOf(listing)[listing[i].0] == listing[i].1
    decreases |listing|
  {
    var init := listing[..|listing| - 1];
    if i < |listing| - 1 {
      assert forall j :: i < j < |init| ==> init[j] == listing[j];
      DictOfLatest(init, i);
      assert init[i] == listing[i];
    }
  }

  /** Python's `<` on strings: code point by code point, a proper prefix first. */
  predicate Less(a: string, b: string)
    decreases |a|
  {
    if |a| == 0 then |b| > 0
    else if |b| == 0 then false
    else if a[0] != b[0] then a[0] < b[0]
    else Less(a[1..], b[1..])
  }

  lemma {:induction false} LessIrreflexive(a: string)
    ensures !Less(a, a)
    decreases |a|
  {
    if |a| > 0 {
      LessIrreflexive(a[1..]);
    }
  }

  lemma {:induction false} LessTotal(a: string, b: string)
    requires a != b
    ensures Less(a, b) || Less(b, a)
    decreases |a|
  {
    if |a| > 0 && |b| > 0 && a[0] == b[0] {
      assert a == [a[0]] + a[1..] && b == [b[0]] + b[1..];
      LessTotal(a[1..], b[1..]);
    }
  }

  lemma {:induction false} LessTrans(a: string, b: string, c: string)
    requires Less(a, b) && Less(b, c)
    ensures Less(a, c)
    decreases |a|
  {
    if |a| > 0 && |b| > 0 && |c| > 0 && a[0] == b[0] && b[0] == c[0] {
      LessTrans(a[1..], b[1..], c[1..]);
    }
  }

  /** Strictly ascending, as `sorted` orders the members of a set. */
  predicate Sorted(xs: seq<string>) {
    forall i, j :: 0 <= i < j < |xs| ==> Less(xs[i], xs[j])
  }

  /** `x` placed before the first element it is not above. */
  function Insert(x: string, xs: seq<string>): seq<string>
    decreases |xs|
  {
    if |xs| == 0 then [x]
    else if Less(xs[0], x) then [xs[0]] + Insert(x, xs[1..])
    else [x] + xs
  }

  lemma {:induction false} InsertSorted(x: string, xs: seq<string>)
    requires Sorted(xs) && x !in xs
    ensures Sorted(Insert(x, xs))
    ensures multiset(Insert(x, xs)) == multiset(xs) + multiset{x}
    decreases |xs|
  {
    InsertMultiset(x, xs);
    if |xs| > 0 {
      assert xs == [xs[0]] + xs[1..];
      if Less(xs[0], x) {
        InsertSorted(x, xs[1..]);
        var r := Insert(x, xs[1..]);
        forall k | 0 <= k < |r| ensures Less(xs[0], r[k]) {
          assert r[k] in multiset(r);
          if r[k] != x {
            assert r[k] in multiset(xs[1..]);
            var m :| 0 <= m < |xs[1..]| && xs[1..][m] == r[k];
            assert xs[m + 1] == r[k];
          }
        }
        ConsSorted(xs[0], r);
      } else {
        LessTotal(x, xs[0]);
        forall k | 0 <= k < |xs| ensures Less(x, xs[k]) {
          if k > 0 {
            LessTrans(x, xs[0], xs[k]);
          }
        }
        ConsSorted(x, xs);
      }
    }
  }

  lemma {:induction false} InsertMultiset(x: string, xs: seq<string>)
    ensures multiset(Insert(x, xs)) == multiset(xs) + multiset{x}
    decreases |xs|
  {
    if |xs| > 0 {
      assert xs == [xs[0]] + xs[1..];
      InsertMultiset(x, xs[1..]);
    }
  }

  /** A strictly sorted list stays so behind a name below all of it. */
  lemma ConsSorted(y: string, r: seq<string>)
    requires Sorted(r) && forall k :: 0 <= k < |r| ==> Less(y, r[k])
    ensures Sorted([y] + r)
  {
    var s := [y] + r;
    forall i, j | 0 <= i < j < |s| ensures Less(s[i], s[j]) {
      assert s[j] == r[j - 1];
      if i > 0 {
        assert s[i] == r[i - 1];
      }
    }
  }

  /** Insertion sort. */
  function SortNames(xs: seq<string>): seq<string>
    decreases |xs|
  {
    if |xs| == 0 then [] else Insert(xs[|xs| - 1], SortNames(xs[..|xs| - 1]))
  }

  /** Sorting a duplicate-free list orders the same names strictly. */
  lemma {:induction false} SortNamesSorted(xs: seq<string>)
    requires NoDup(xs)
    ensures Sorted(SortNames(xs)) && multiset(SortNames(xs)) == multiset(xs)
    decreases |xs|
  {
    if |xs| > 0 {
      var init, x := xs[..|xs| - 1], xs[|xs| - 1];
      assert xs == init + [x];
      SortNamesSorted(init);
      assert x !in init;
      assert x !in multiset(SortNames(init));
      InsertSorted(x, SortNames(init));
    }
  }

  lemma SameElems(a: seq<string>, b: seq<string>)
    requires multiset(a) == multiset(b)
    ensures Elems(a) == Elems(b)
  {
    forall x ensures x in Elems(a) <==> x in Elems(b) {
      InElems(a, x);
      InElems(b, x);
      assert x in a <==> x in multiset(a);
    }
  }

  /** `sorted(set(eng_pdfs.keys()) & set(hin_pdfs.keys()))`: the names both folders
      list, each once, in ascending order. */
  function MatchingNames(eng: seq<(string, string)>, hin: seq<(string, string)>): (r: seq<string>)
    ensures Sorted(r)
    ensures Elems(r) == DictOf(eng).Keys * DictOf(hin).Keys
    ensures forall i :: 0 <= i < |r| ==> r[i] in DictOf(eng) && r[i] in DictOf(hin)
  {
    CommonNames(eng, hin);
    SortNames(Dedup(Filter(MapSeq(NameOf, eng), InKeys(DictOf(hin)))))
  }

  function InKeys(m: map<string, string>): string -> bool {
    (n: string) => n in m
  }

  lemma CommonNames(eng: seq<(string, string)>, hin: seq<(string, string)>)
    ensures var r := SortNames(Dedup(Filter(MapSeq(NameOf, eng), InKeys(DictOf(hin)))));
      && Sorted(r)
      && Elems(r) == DictOf(eng).Keys * DictOf(hin).Keys
      && forall i :: 0 <= i < |r| ==> r[i] in DictOf(eng) && r[i] in DictOf(hin)
  {
    var names := MapSeq(NameOf, eng);
    var common := Filter(names, InKeys(DictOf(hin)));
    FilterElems(names, DictOf(hin));
    DedupProperties(common);
    SortNamesSorted(Dedup(common));
    var r := SortNames(Dedup(common));
    SameElems(r, Dedup(common));
    assert forall i :: 0 <= i < |r| ==> r[i] in Elems(r);
  }

  lemma FilterElems(names: seq<string>, m: map<string, string>)
    ensures Elems(Filter(names, InKeys(m))) == Elems(names) * m.Keys
  {
    var common := Filter(names, InKeys(m));
    forall n | n in Elems(names) * m.Keys ensures n in Elems(common) {
      InElems(names, n);
      var i :| 0 <= i < |names| && names[i] == n;
      assert InKeys(m)(names[i]);
      InElems(common, n);
    }
    forall n | n in Elems(common) ensures n in Elems(names) * m.Keys {
      var i :| 0 <= i < |common| && common[i] == n;
      assert InKeys(m)(common[i]);
      InElems(names, n);
    }
  }

  /** A folder listing whose every name is a non-empty stem followed by `.pdf`. */
  predicate PdfNames(listing: seq<(string, string)>) {
    forall i :: 0 <= i < |listing| ==> |listing[i].0| > 4 && listing[i].0[|listing[i].0| - 4..] == ".pdf"
  }

  /** Distinct `.pdf` names give distinct document ids, so no two pairs of a folder
      run share the id their rows and checkpoints are keyed by. */
  lemma DistinctDocIds(eng: seq<(string, string)>, hin: seq<(string, string)>)
    requires PdfNames(eng)
    ensures var names := MatchingNames(eng, hin);
      forall i, j :: 0 <= i < j < |names| ==> Stem(names[i]) != Stem(names[j])
  {
    var names := MatchingNames(eng, hin);
    forall i, j | 0 <= i < j < |names| ensures Stem(names[i]) != Stem(names[j]) {
      LessIrreflexive(names[i]);
      PdfNameStem(eng, names[i]);
      PdfNameStem(eng, names[j]);
    }
  }

  /** A name of a `.pdf` listing is its stem followed by `.pdf`. */
  lemma PdfNameStem(listing: seq<(string, string)>, n: string)
    requires PdfNames(listing) && n in DictOf(listing)
    ensures n == Stem(n) + ".pdf"
  {
    InElems(MapSeq(NameOf, listing), n);
    var i :| 0 <= i < |listing| && NameOf(listing[i]) == n;
    var stem := n[..|n| - 4];
    assert n == stem + ".pdf";
    StemOfPdfName(stem);
  }

  /** `find_matching_pdfs(eng_path, hin_path)`: one pair for two files, or one pair per
      name the two folders share, in sorted order; the exits as errors. */
  method FindMatchingPdfs(eng: Location, hin: Location) returns (r: Result<seq<PdfPair>, FindError>)
    ensures eng.PdfFile? && hin.PdfFile? ==>
      r == (if !IsPdfPath(eng.path) then Err(EnglishNotPdf)
            else if !IsPdfPath(hin.path) then Err(HindiNotPdf)
            else Ok([PdfPair(eng.path, hin.path, Stem(BaseName(eng.path)))]))
    ensures eng.PdfFolder? && hin.PdfFolder? ==>
      var e, h := DictOf(eng.listing), DictOf(hin.listing);
      var names := MatchingNames(eng.listing, hin.listing);
      && (|e| == 0 ==> r == Err(NoEnglishPdfs))
      && (|e| > 0 && |h| == 0 ==> r == Err(NoHindiPdfs))
      && (|e| > 0 && |h| > 0 && e.Keys * h.Keys == {} ==> r == Err(NoMatchingPairs))
      && (|e| > 0 && |h| > 0 && e.Keys * h.Keys != {} ==>
            && r.Ok? && |r.value| == |names|
            && forall i :: 0 <= i < |names| ==>
                 r.value[i] == PdfPair(e[names[i]], h[names[i]], Stem(names[i])))
    ensures eng.PdfFile? != hin.PdfFile? ==> r == Err(MixedInputs)
  {
    if eng.PdfFile? && hin.PdfFile? {
      if !IsPdfPath(eng.path) {
        return Err(EnglishNotPdf);
      }
      if !IsPdfPath(hin.path) {
        return Err(HindiNotPdf);
      }
      return Ok([PdfPair(eng.path, hin.path, Stem(BaseName(eng.path)))]);
    }
    if eng.PdfFolder? && hin.PdfFolder? {
      var e := DictOf(eng.listing);
      var h := DictOf(hin.listing);
      if |e| == 0 {
        return Err(NoEnglishPdfs);
      }
      if |h| == 0 {
        return Err(NoHindiPdfs);
      }
      var names := MatchingNames(eng.listing, hin.listing);
      if |names| == 0 {
        assert Elems(names) == {};
        return Err(NoMatchingPairs);
      }
      assert names[0] in e.Keys * h.Keys;
      var pairs: seq<PdfPair> := [];
      for k := 0 to |names|
        invariant |pairs| == k
        invariant forall i :: 0 <= i < k ==> pairs[i] == PdfPair(e[names[i]], h[names[i]], Stem(names[i]))
      {
        pairs := pairs + [PdfPair(e[names[k]], h[names[k]], Stem(names[k]))];
      }
      return Ok(pairs);
    }
    return Err(MixedInputs);
  }

  // One document (process_pdf_pair).

  datatype DocStatus = DocSuccess | DocPartial

  /** The dictionary `process_pdf_pair` returns: the `'failed'` one when a page count
      cannot be read, otherwise the statistics of the document's pages. */
  datatype DocResult =
    | AnalysisFailed(docId: string, error: string)
    | DocSummary(docId: string, status: DocStatus, totalPages: nat, successful: nat,
                 failed: nat, totalChunks: nat)

  /** `sum(f(r) for r in rs)`. */
  function Tally(xs: seq<PageResult>, f: PageResult -> nat): nat
    decreases |xs|
  {
    if |xs| == 0 then 0 else Tally(xs[..|xs| - 1], f) + f(xs[|xs| - 1])
  }

  function SuccessOne(r: PageResult): nat { if r.status == PageSuccess then 1 else 0 }

  function FailureOne(r: PageResult): nat { if r.status == PageFailed then 1 else 0 }

  function ChunksOf(r: PageResult): nat { r.chunks }

  function PageOf(r: PageResult): nat { r.page }

  /** The statistics and status of the returned dictionary, from the page results in
      the order they were collected. */
  function Summary(docId: string, total: nat, rs: seq<PageResult>): DocResult {
    var failed := Tally(rs, FailureOne);
    DocSummary(docId, if failed == 0 then DocSuccess else DocPartial, total,
               Tally(rs, SuccessOne), failed, Tally(rs, ChunksOf))
  }

  /** The row writes of page `p`, by chunk id. */
  function PageWrites(writeError: (nat, nat) -> Option<string>, p: nat): nat -> Option<string> {
    (q: nat) => writeError(p, q)
  }

  /** What `process_page` gives for each page below `total`, page by page. */
  function PageResults(c: Collaborators, docId: string, engPdf: string, hinPdf: string, total: nat,
                       text: (string, nat) -> Result<string, string>,
                       writeError: (nat, nat) -> Option<string>): (rs: seq<PageResult>)
    ensures |rs| == total
    ensures forall p :: 0 <= p < total ==>
      rs[p] == PageOutcome(c, docId, p, text(engPdf, p), text(hinPdf, p), PageWrites(writeError, p)).0
  {
    seq(total, p requires 0 <= p < total =>
      PageOutcome(c, docId, p, text(engPdf, p), text(hinPdf, p), PageWrites(writeError, p)).0)
  }

  /** `process_pdf_pair(eng_pdf, hin_pdf, doc_id)`, given the page counts (or the
      error reading them raises), each page's text, which row writes raise, and the
      order in which the pool's pages complete: the pages below `min` of the counts
      are each processed once, and the summary is taken over the results as
      collected. */
  method ProcessPdfPair(c: Collaborators, engPdf: string, hinPdf: string, docId: string,
                        engCount: Result<nat, string>, hinCount: Result<nat, string>,
                        text: (string, nat) -> Result<string, string>,
                        writeError: (nat, nat) -> Option<string>, order: seq<nat>)
    returns (doc: DocResult, results: seq<PageResult>)
    requires engCount.Ok? && hinCount.Ok? ==> IsPermutationOf(order, Min(engCount.value, hinCount.value))
    ensures engCount.Err? ==> doc == AnalysisFailed(docId, engCount.error) && results == []
    ensures engCount.Ok? && hinCount.Err? ==> doc == AnalysisFailed(docId, hinCount.error) && results == []
    ensures engCount.Ok? && hinCount.Ok? ==>
      var pages := PageResults(c, docId, engPdf, hinPdf, Min(engCount.value, hinCount.value), text, writeError);
      && AllBelow(order, |pages|)
      && results == Permuted(pages, order)
      && doc == Summary(docId, |pages|, results)
  {
    if engCount.Err? {
      return AnalysisFailed(docId, engCount.error), [];
    }
    if hinCount.Err? {
      return AnalysisFailed(docId, hinCount.error), [];
    }
    var total: nat := Min(engCount.value, hinCount.value);
    PermutationBounds(order, total);
    results := ProcessPages(c, docId, engPdf, hinPdf, total, text, writeError, order);
    doc := Summary(docId, total, results);
  }

  /** The pool's loop over `as_completed`: each page in `order` processed and its
      result collected. */
  method ProcessPages(c: Collaborators, docId: string, engPdf: string, hinPdf: string, total: nat,
                      text: (string, nat) -> Result<string, string>,
                      writeError: (nat, nat) -> Option<string>, order: seq<nat>)
    returns (results: seq<PageResult>)
    requires AllBelow(order, total)
    ensures var pages := PageResults(c, docId, engPdf, hinPdf, total, text, writeError);
      results == Permuted(pages, order)
  {
    ghost var pages := PageResults(c, docId, engPdf, hinPdf, total, text, writeError);
    results := [];
    for j := 0 to |order|
      invariant AllBelow(order[..j], |pages|)
      invariant results == Permuted(pages, order[..j])
    {
      var r := ProcessPageAt(c, docId, engPdf, hinPdf, total, text, writeError, order[j]);
      PermutedSnoc(pages, order, j);
      results := results + [r];
    }
    assert order[..|order|] == order;
  }

  /** One `pool.submit(process_page, ...)` task: the result of page `p`. */
  method ProcessPageAt(c: Collaborators, docId: string, engPdf: string, hinPdf: string, total: nat,
                       text: (string, nat) -> Result<string, string>,
                       writeError: (nat, nat) -> Option<string>, p: nat)
    returns (r: PageResult)
    requires p < total
    ensures r == PageResults(c, docId, engPdf, hinPdf, total, text, writeError)[p]
  {
    var written;
    r, written := ProcessPage(c, docId, p, text(engPdf, p), text(hinPdf, p), PageWrites(writeError, p));
  }

  lemma {:induction false} TallyAppend(a: seq<PageResult>, b: seq<PageResult>, f: PageResult -> nat)
    ensures Tally(a + b, f) == Tally(a, f) + Tally(b, f)
    decreases |b|
  {
    if |b| == 0 {
      assert a + b == a;
    } else {
      assert (a + b)[..|a + b| - 1] == a + b[..|b| - 1];
      TallyAppend(a, b[..|b| - 1], f);
    }
  }

  lemma TallyWithout(b: seq<PageResult>, k: nat, f: PageResult -> nat)
    requires k < |b|
    ensures Tally(b, f) == Tally(b[..k] + b[k + 1..], f) + f(b[k])
  {
    TallyAt(b, k, f);
    TallyAppend(b[..k], b[k + 1..], f);
  }

  lemma TallyAt(s: seq<PageResult>, k: nat, f: PageResult -> nat)
    requires k < |s|
    ensures Tally(s, f) == Tally(s[..k], f) + f(s[k]) + Tally(s[k + 1..], f)
  {
    assert s == s[..k + 1] + s[k + 1..];
    TallyAppend(s[..k + 1], s[k + 1..], f);
    assert s[..k + 1][..k] == s[..k];
  }

  /** A sum over a list depends only on its elements, not on their order. */
  lemma {:induction false} TallyMultiset(a: seq<PageResult>, b: seq<PageResult>, f: PageResult -> nat)
    requires multiset(a) == multiset(b)
    ensures Tally(a, f) == Tally(b, f)
    decreases |a|
  {
    if |a| == 0 {
      assert |b| == |multiset(b)| == 0;
    } else {
      var x := a[|a| - 1];
      assert a == a[..|a| - 1] + [x];
      assert x in multiset(b);
      var k :| 0 <= k < |b| && b[k] == x;
      TallyWithout(b, k, f);
      var rest := b[..k] + b[k + 1..];
      assert b == b[..k] + [b[k]] + b[k + 1..];
      assert multiset(rest) == multiset(b) - multiset{x};
      TallyMultiset(a[..|a| - 1], rest, f);
    }
  }

  /** The summary does not depend on the order in which the pages complete. */
  lemma SummaryIgnoresOrder(docId: string, pages: seq<PageResult>, order: seq<nat>)
    requires IsPermutationOf(order, |pages|)
    ensures AllBelow(order, |pages|)
    ensures Summary(docId, |pages|, Permuted(pages, order)) == Summary(docId, |pages|, pages)
  {
    PermutedMultiset(pages, order);
    TallyMultiset(Permuted(pages, order), pages, SuccessOne);
    TallyMultiset(Permuted(pages, order), pages, FailureOne);
    TallyMultiset(Permuted(pages, order), pages, ChunksOf);
  }

  /** Every page is a success or a failure; the document is a success exactly when no
      page failed. */
  lemma {:induction false} SummaryCounts(docId: string, total: nat, rs: seq<PageResult>)
    ensures var d := Summary(docId, total, rs);
      && d.successful + d.failed == |rs|
      && (d.status == DocSuccess <==> forall i :: 0 <= i < |rs| ==> rs[i].status == PageSuccess)
    decreases |rs|
  {
    if |rs| > 0 {
      var init := rs[..|rs| - 1];
      SummaryCounts(docId, total, init);
      assert forall i :: 0 <= i < |init| ==> init[i] == rs[i];
    }
  }

  /** Each page below the smaller page count is reported exactly once. */
  lemma EveryPageOnce(c: Collaborators, docId: string, engPdf: string, hinPdf: string, total: nat,
                      text: (string, nat) -> Result<string, string>,
                      writeError: (nat, nat) -> Option<string>, order: seq<nat>)
    requires IsPermutationOf(order, total)
    ensures AllBelow(order, total)
    ensures multiset(MapSeq(PageOf, Permuted(PageResults(c, docId, engPdf, hinPdf, total, text, writeError), order)))
         == multiset(Range(total))
  {
    PermutationBounds(order, total);
    var pages := PageResults(c, docId, engPdf, hinPdf, total, text, writeError);
    forall p | 0 <= p < total ensures pages[p].page == p {
      PageOutcomeShape(c, docId, p, text(engPdf, p), text(hinPdf, p), PageWrites(writeError, p));
    }
    assert MapSeq(PageOf, Permuted(pages, order)) == order;
  }
}
