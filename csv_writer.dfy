/** `modules/csv_writer.py`: the row a chunk becomes, the chapter number read from the
    regex matches, and the timestamp rule of the two appenders. The CSV and JSON
    encoders and the clock are not part of this model: a file is the sequence of
    records appended to it, and the current time is a parameter. */
module CsvWriter {
  import opened Wrappers
  import opened Strings
  import opened Sequences

  /** A value `create_row` stores under a key. */
  datatype Value = Text(s: string) | Int(i: int) | Bool(b: bool) | Real(r: real)

  type Fields = map<string, Value>

  /** `CSV_HEADERS`, the sixteen columns in file order. */
  const CsvHeaders: seq<string> :=
    ["doc_id", "page", "chunk_id", "chapter_num", "eng_chunk", "hin_chunk_raw",
     "hin_chunk_verified", "translation_changed", "char_count_eng", "char_count_hin",
     "quality_score", "quality_label", "alignment_method", "regex_matches", "llm_flags",
     "timestamp"]

  /** The Hindi heading word अध्याय. */
  const Adhyay: string := "\U{905}\U{927}\U{94D}\U{92F}\U{93E}\U{92F}"

  /** An element of the decoded match list: a string, or another JSON value, on which
      `re.search` raises `TypeError`. */
  datatype Item = StrItem(s: string) | OtherItem

  /** `json.loads(regex_matches_json)` as the loop iterates it: the values iterated, or
      `Undecodable` for text that is not JSON and for a JSON value that cannot be
      iterated. Both of those raise an error the function catches. */
  datatype Decoded = Undecodable | Items(items: seq<Item>)

  /** The leading run of digits of `s`. */
  function LeadingDigits(s: string): (r: string)
    ensures |r| <= |s| && r == s[..|r|] && AllDigits(r)
    ensures |r| < |s| ==> !IsDigit(s[|r|])
    decreases |s|
  {
    if |s| > 0 && IsDigit(s[0]) then [s[0]] + LeadingDigits(s[1..]) else []
  }

  /** `re.search(word + r'\s+(\d+)', s)`, case-insensitive when `ci`, matches at `p`:
      the word, at least one whitespace character, then a digit. The greedy `\s+`
      can only give up whitespace, so the character after the whole run decides. */
  predicate HeadingAt(s: string, word: string, ci: bool, p: nat) {
    && p + |word| <= |s|
    && (if ci then EqualsIgnoreCase(s[p..p + |word|], word) else s[p..p + |word|] == word)
    && var rest := s[p + |word|..];
       var d := LStrip(rest);
       |d| < |rest| && |d| > 0 && IsDigit(d[0])
  }

  /** Group 1 of the match at `p`: every digit after the whitespace. */
  function NumberAfter(s: string, word: string, p: nat): string
    requires p + |word| <= |s|
  {
    LeadingDigits(LStrip(s[p + |word|..]))
  }

  /** The group of the leftmost match at or after `p`. */
  function Search(s: string, word: string, ci: bool, p: nat): (r: Option<string>)
    ensures r.Some? ==> |r.value| > 0 && AllDigits(r.value)
    decreases |s| - p
  {
    if p >= |s| then None
    else if HeadingAt(s, word, ci, p) then Some(NumberAfter(s, word, p))
    else Search(s, word, ci, p + 1)
  }

  /** The search finds nothing exactly when no position matches. */
  lemma {:induction false} SearchNone(s: string, word: string, ci: bool, p: nat)
    ensures Search(s, word, ci, p).None? <==> forall q :: p <= q < |s| ==> !HeadingAt(s, word, ci, q)
    decreases |s| - p
  {
    if p < |s| {
      SearchNone(s, word, ci, p + 1);
      if !HeadingAt(s, word, ci, p) {
        assert Search(s, word, ci, p) == Search(s, word, ci, p + 1);
        assert (forall q :: p <= q < |s| ==> !HeadingAt(s, word, ci, q))
           <==> (forall q :: p + 1 <= q < |s| ==> !HeadingAt(s, word, ci, q));
      }
    }
  }

  /** The search returns the group of the first matching position. */
  lemma {:induction false} SearchFirst(s: string, word: string, ci: bool, p: nat, q: nat)
    requires p <= q < |s| && HeadingAt(s, word, ci, q)
    requires forall j :: p <= j < q ==> !HeadingAt(s, word, ci, j)
    ensures Search(s, word, ci, p) == Some(NumberAfter(s, word, q))
    decreases q - p
  {
    if p < q {
      SearchFirst(s, word, ci, p + 1, q);
    }
  }

  /** One list element: the English pattern first, then the Hindi one. */
  function ChapterOf(s: string): (r: Option<string>)
    ensures r.Some? ==> |r.value| > 0 && AllDigits(r.value)
    ensures Search(s, "Chapter", true, 0).Some? ==> r == Search(s, "Chapter", true, 0)
  {
    var e := Search(s, "Chapter", true, 0);
    if e.Some? then e else Search(s, Adhyay, false, 0)
  }

  /** The loop of `extract_chapter_number` over the decoded list. */
  function ChapterIn(items: seq<Item>): (r: string)
    ensures AllDigits(r)
    decreases |items|
  {
    if |items| == 0 then ""
    else match items[0]
      case OtherItem => ""
      case StrItem(s) => if ChapterOf(s).Some? then ChapterOf(s).value else ChapterIn(items[1..])
  }

  /** `extract_chapter_number(regex_matches_json)`: digits or the empty string. */
  function ExtractChapterNumber(d: Decoded): (r: string)
    ensures AllDigits(r)
    ensures d.Undecodable? ==> r == ""
  {
    match d
    case Undecodable => ""
    case Items(items) => ChapterIn(items)
  }

  /** The elements before `k` are strings that hold no heading. */
  predicate NoHeadingBefore(items: seq<Item>, k: nat)
    requires k <= |items|
  {
    forall j :: 0 <= j < k ==> items[j].StrItem? && ChapterOf(items[j].s).None?
  }

  /** The number comes from the first element that holds a heading. */
  lemma {:induction false} ChapterFromFirstHeading(items: seq<Item>, k: nat)
    requires k < |items| && NoHeadingBefore(items, k)
    requires items[k].StrItem? && ChapterOf(items[k].s).Some?
    ensures ChapterIn(items) == ChapterOf(items[k].s).value
    decreases k
  {
    if k > 0 {
      assert items[0].StrItem? && ChapterOf(items[0].s).None?;
      assert forall j :: 0 <= j < k - 1 ==> items[1..][j] == items[j + 1];
      ChapterFromFirstHeading(items[1..], k - 1);
    }
  }

  /** An element that is not a string, reached before any heading, ends the search with
      the empty string. */
  lemma {:induction false} ChapterStopsAtNonString(items: seq<Item>, k: nat)
    requires k < |items| && NoHeadingBefore(items, k) && items[k].OtherItem?
    ensures ChapterIn(items) == ""
    decreases k
  {
    if k > 0 {
      assert items[0].StrItem? && ChapterOf(items[0].s).None?;
      assert forall j :: 0 <= j < k - 1 ==> items[1..][j] == items[j + 1];
      ChapterStopsAtNonString(items[1..], k - 1);
    }
  }

  /** A list of strings none of which holds a heading gives the empty string. */
  lemma {:induction false} ChapterAbsent(items: seq<Item>)
    requires NoHeadingBefore(items, |items|)
    ensures ChapterIn(items) == ""
    decreases |items|
  {
    if |items| > 0 {
      assert items[0].StrItem? && ChapterOf(items[0].s).None?;
      assert forall j :: 0 <= j < |items| - 1 ==> items[1..][j] == items[j + 1];
      ChapterAbsent(items[1..]);
    }
  }

  /** `create_row(...)`. The Hindi verified text counts as present when non-empty;
      `decoded` is `json.loads(regex_matches)` and `now` the UTC timestamp. */
  function CreateRow(docId: string, page: int, chunkId: int, eng: string, raw: string,
                     verified: string, alignmentMethod: string, regexMatches: string,
                     decoded: Decoded, llmFlags: string, qualityScore: real,
                     qualityLabel: string, now: string): (row: Fields)
    ensures "translation_changed" in row
            && row["translation_changed"] == Bool(raw != verified && |verified| > 0)
    ensures "char_count_eng" in row && row["char_count_eng"] == Int(|eng|)
    ensures "char_count_hin" in row
            && row["char_count_hin"] == Int(if |verified| > 0 then |verified| else |raw|)
    ensures "chapter_num" in row && row["chapter_num"] == Text(ExtractChapterNumber(decoded))
    ensures "timestamp" in row && row["timestamp"] == Text(now)
  {
    map[
      "doc_id" := Text(docId),
      "page" := Int(page),
      "chunk_id" := Int(chunkId),
      "chapter_num" := Text(ExtractChapterNumber(decoded)),
      "eng_chunk" := Text(eng),
      "hin_chunk_raw" := Text(raw),
      "hin_chunk_verified" := Text(verified),
      "translation_changed" := Bool(raw != verified && |verified| > 0),
      "char_count_eng" := Int(|eng|),
      "char_count_hin" := Int(if |verified| > 0 then |verified| else |raw|),
      "quality_score" := Real(qualityScore),
      "quality_label" := Text(qualityLabel),
      "alignment_method" := Text(alignmentMethod),
      "regex_matches" := Text(regexMatches),
      "llm_flags" := Text(llmFlags),
      "timestamp" := Text(now)
    ]
  }

  /** The keys of a built row are exactly the sixteen columns. */
  lemma RowColumns(docId: string, page: int, chunkId: int, eng: string, raw: string,
                   verified: string, alignmentMethod: string, regexMatches: string,
                   decoded: Decoded, llmFlags: string, qualityScore: real,
                   qualityLabel: string, now: string)
    ensures var row := CreateRow(docId, page, chunkId, eng, raw, verified, alignmentMethod,
                                 regexMatches, decoded, llmFlags, qualityScore, qualityLabel, now);
      && row.Keys == Elems(CsvHeaders)
  {
    var row := CreateRow(docId, page, chunkId, eng, raw, verified, alignmentMethod,
                         regexMatches, decoded, llmFlags, qualityScore, qualityLabel, now);
    assert forall h :: h in CsvHeaders ==> h in row;
    assert forall k :: k in row ==> k in CsvHeaders;
  }

  /** Where the row sits is stored as it was given. */
  lemma RowPlace(docId: string, page: int, chunkId: int, eng: string, raw: string,
                 verified: string, alignmentMethod: string, regexMatches: string,
                 decoded: Decoded, llmFlags: string, qualityScore: real,
                 qualityLabel: string, now: string)
    ensures var row := CreateRow(docId, page, chunkId, eng, raw, verified, alignmentMethod,
                                 regexMatches, decoded, llmFlags, qualityScore, qualityLabel, now);
      && "doc_id" in row && row["doc_id"] == Text(docId)
      && "page" in row && row["page"] == Int(page)
      && "chunk_id" in row && row["chunk_id"] == Int(chunkId)
  {
  }

  /** The row after `if 'timestamp' not in row_data: row_data['timestamp'] = now`. */
  function Stamped(fields: Fields, now: string): (r: Fields)
    ensures r.Keys == fields.Keys + {"timestamp"}
    ensures forall k :: k in fields ==> r[k] == fields[k]
    ensures "timestamp" !in fields ==> r["timestamp"] == Text(now)
  {
    if "timestamp" in fields then fields else fields["timestamp" := Text(now)]
  }

  /** A second stamp changes nothing, whatever its time. */
  lemma StampOnce(fields: Fields, now: string, later: string)
    ensures Stamped(Stamped(fields, now), later) == Stamped(fields, now)
  {
  }

  /** The cells `csv.DictWriter.writerow` writes: the value of each header in order,
      and the empty string for a header the row lacks. */
  function Cells(fields: Fields): (r: seq<Value>)
    ensures |r| == |CsvHeaders|
  {
    seq(|CsvHeaders|, i requires 0 <= i < |CsvHeaders| =>
      if CsvHeaders[i] in fields then fields[CsvHeaders[i]] else Text(""))
  }

  /** A built row is written as it is: every key is a column, and its own timestamp
      stays. */
  lemma CreatedRowWritable(docId: string, page: int, chunkId: int, eng: string, raw: string,
                           verified: string, alignmentMethod: string, regexMatches: string,
                           decoded: Decoded, llmFlags: string, qualityScore: real,
                           qualityLabel: string, now: string, later: string)
    ensures var row := CreateRow(docId, page, chunkId, eng, raw, verified, alignmentMethod,
                                 regexMatches, decoded, llmFlags, qualityScore, qualityLabel, now);
      Stamped(row, later) == row && row.Keys <= Elems(CsvHeaders)
      && Cells(row)[|CsvHeaders| - 1] == Text(now)
  {
    RowColumns(docId, page, chunkId, eng, raw, verified, alignmentMethod, regexMatches,
               decoded, llmFlags, qualityScore, qualityLabel, now);
  }

  /** A row dictionary that the appenders update in place. */
  class RowData {
    var fields: Fields

    constructor (fields: Fields)
      ensures this.fields == fields
    {
      this.fields := fields;
    }
  }

  /** A line of the CSV file: the header, or a row's cells. */
  datatype CsvRecord = HeaderLine | DataLine(cells: seq<Value>)

  /** The CSV file: whether it exists, and its lines. */
  class CsvFile {
    var present: bool
    var records: seq<CsvRecord>

    constructor ()
      ensures !present && records == []
    {
      present := false;
      records := [];
    }

    /** `append_row(row_data, csv_path, lock)`: opening in append mode creates the file,
        a new file gets the header, the row is stamped if it has no timestamp, and
        `writerow` raises for a key that is not a column, after the stamp and the
        header. `ok` is false where it raises. */
    method AppendRow(row: RowData, now: string) returns (ok: bool)
      modifies this, row
      ensures row.fields == Stamped(old(row.fields), now)
      ensures present
      ensures ok <==> row.fields.Keys <= Elems(CsvHeaders)
      ensures records == old(records) + (if old(present) then [] else [HeaderLine])
                         + (if ok then [DataLine(Cells(row.fields))] else [])
    {
      var existed := present;
      present := true;
      if !existed {
        records := records + [HeaderLine];
      }
      if "timestamp" !in row.fields {
        row.fields := row.fields["timestamp" := Text(now)];
      }
      if row.fields.Keys <= Elems(CsvHeaders) {
        records := records + [DataLine(Cells(row.fields))];
        ok := true;
      } else {
        ok := false;
      }
    }
  }

  /** The JSON Lines file: the objects written, one per line. */
  class JsonLinesFile {
    var lines: seq<Fields>

    constructor ()
      ensures lines == []
    {
      lines := [];
    }

    /** `append_json_line(row_data, json_path, lock)`: stamp the row if it has no
        timestamp, then write it as one line. */
    method AppendJsonLine(row: RowData, now: string)
      modifies this, row
      ensures row.fields == Stamped(old(row.fields), now)
      ensures lines == old(lines) + [row.fields]
    {
      if "timestamp" !in row.fields {
        row.fields := row.fields["timestamp" := Text(now)];
      }
      lines := lines + [row.fields];
    }
  }
}
