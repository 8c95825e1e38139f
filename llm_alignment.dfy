/** `modules/llm_alignment.py`: reading the `<csv>` block of the model's answer into
    sentence pairs, and aligning a batch of pages. The model call and the CSV
    tokeniser are not part of this model: the tokeniser is a function from text to
    rows of fields, and each page's alignment is an outcome given by its index. */
module LlmAlignment {
  import opened Wrappers
  import opened Strings

  type Pair = (string, string)

  const OpenTag := "<csv>"
  const CloseTag := "</csv>"

  /** The message of the `ValueError` raised for an answer without a block. */
  const MissingBlock := "Response does not contain <csv></csv> block"

  /** `response[find('<csv>') + 5 : find('</csv>')].strip()`, or `None` when either
      tag is missing. Python's slice is empty when its start is past its end. */
  function CsvBlock(response: string): (r: Option<string>)
    ensures r.Some? <==> Contains(response, OpenTag) && Contains(response, CloseTag)
    ensures r.Some? ==> IsStripped(r.value)
  {
    match (Find(response, OpenTag), Find(response, CloseTag))
    case (Some(a), Some(b)) => Some(Strip(if a + |OpenTag| <= b then response[a + |OpenTag|..b] else ""))
    case _ => None
  }

  /** The index where `p` first occurs. */
  lemma FirstOccurrence(s: string, p: string, a: nat)
    requires OccursAt(s, p, a) && forall j :: 0 <= j < a ==> !OccursAt(s, p, j)
    ensures Find(s, p) == Some(a)
  {
    assert Contains(s, p);
  }

  /** The block is the text between the first opening tag and the first closing tag. */
  lemma BlockBetweenFirstTags(response: string, a: nat, b: nat)
    requires OccursAt(response, OpenTag, a) && forall j :: 0 <= j < a ==> !OccursAt(response, OpenTag, j)
    requires OccursAt(response, CloseTag, b) && forall j :: 0 <= j < b ==> !OccursAt(response, CloseTag, j)
    ensures CsvBlock(response)
            == Some(Strip(if a + |OpenTag| <= b then response[a + |OpenTag|..b] else ""))
  {
    FirstOccurrence(response, OpenTag, a);
    FirstOccurrence(response, CloseTag, b);
  }

  /** The first row is the header when its first field, lower-cased, is `english`. */
  predicate IsHeader(row: seq<string>) {
    |row| > 0 && LowerAscii(row[0]) == "english"
  }

  /** What the first row adds: its first two fields exactly as they are, unless it is
      the header or has fewer than two fields. */
  function FirstRowPairs(rows: seq<seq<string>>): (r: seq<Pair>)
    ensures |r| <= 1
    ensures |r| == 1 <==> |rows| > 0 && |rows[0]| >= 2 && !IsHeader(rows[0])
    ensures |r| == 1 ==> r[0] == (rows[0][0], rows[0][1])
  {
    if |rows| == 0 || |rows[0]| < 2 || IsHeader(rows[0]) then [] else [(rows[0][0], rows[0][1])]
  }

  /** What a later row adds: its first two fields stripped, when it has two and
      neither is blank. */
  function KeptRow(row: seq<string>): Option<Pair> {
    if |row| >= 2 && |Strip(row[0])| > 0 && |Strip(row[1])| > 0 then Some((Strip(row[0]), Strip(row[1])))
    else None
  }

  /** The pairs the later rows add, in row order. */
  function LaterPairs(rows: seq<seq<string>>): seq<Pair>
    decreases |rows|
  {
    if |rows| == 0 then []
    else
      var init := LaterPairs(rows[..|rows| - 1]);
      match KeptRow(rows[|rows| - 1])
      case Some(p) => init + [p]
      case None => init
  }

  /** The pairs parsed from the rows of the block. */
  function ParsedPairs(rows: seq<seq<string>>): (r: seq<Pair>)
    ensures |r| <= |rows|
    ensures forall i :: |FirstRowPairs(rows)| <= i < |r| ==>
      |r[i].0| > 0 && |r[i].1| > 0 && IsStripped(r[i].0) && IsStripped(r[i].1)
  {
    if |rows| == 0 then []
    else
      LaterPairsShape(rows[1..]);
      FirstRowPairs(rows) + LaterPairs(rows[1..])
  }

  /** `_parse_csv_response(response)`: `Err` where it raises `ValueError`. */
  method ParseCsvResponse(response: string, tokenise: string -> seq<seq<string>>)
    returns (r: Result<seq<Pair>, string>)
    ensures CsvBlock(response).None? ==> r == Err(MissingBlock)
    ensures CsvBlock(response).Some? ==> r == Ok(ParsedPairs(tokenise(CsvBlock(response).value)))
  {
    var open := Find(response, OpenTag);
    var close := Find(response, CloseTag);
    if open.None? || close.None? {
      return Err(MissingBlock);
    }
    var start := open.value + |OpenTag|;
    var stop := close.value;
    var content := Strip(if start <= stop then response[start..stop] else "");
    var pairs := ReadRows(tokenise(content));
    return Ok(pairs);
  }

  /** The row loop of `_parse_csv_response` over the tokenised block. */
  method ReadRows(rows: seq<seq<string>>) returns (pairs: seq<Pair>)
    ensures pairs == ParsedPairs(rows)
  {
    pairs := [];
    if |rows| == 0 {
      return;
    }
    var first := rows[0];
    if |first| > 0 && LowerAscii(first[0]) != "english" {
      if |first| >= 2 {
        pairs := [(first[0], first[1])];
      }
    }
    var later: seq<Pair> := [];
    for n := 1 to |rows|
      invariant later == LaterPairs(rows[1..n])
    {
      LaterPairsSnoc(rows, n);
      var row := rows[n];
      if |row| >= 2 {
        var english := Strip(row[0]);
        var hindi := Strip(row[1]);
        if |english| > 0 && |hindi| > 0 {
          later := later + [(english, hindi)];
        }
      }
    }
    assert rows[1..|rows|] == rows[1..];
    pairs := pairs + later;
  }

  lemma LaterPairsSnoc(rows: seq<seq<string>>, n: nat)
    requires 1 <= n < |rows|
    ensures LaterPairs(rows[1..n + 1])
            == LaterPairs(rows[1..n]) + (if KeptRow(rows[n]).Some? then [KeptRow(rows[n]).value] else [])
  {
    var w := rows[1..n + 1];
    assert w[..|w| - 1] == rows[1..n];
    assert w[|w| - 1] == rows[n];
  }

  /** The later rows add at most one pair each, and each is two stripped, non-empty
      fields. */
  lemma {:induction false} LaterPairsShape(rows: seq<seq<string>>)
    ensures |LaterPairs(rows)| <= |rows|
    ensures forall i :: 0 <= i < |LaterPairs(rows)| ==>
      var p := LaterPairs(rows)[i];
      |p.0| > 0 && |p.1| > 0 && IsStripped(p.0) && IsStripped(p.1)
    decreases |rows|
  {
    if |rows| > 0 {
      LaterPairsShape(rows[..|rows| - 1]);
    }
  }

  /** Rows add their pairs one after another: the pairs of two row lists are the
      pairs of each, in order. */
  lemma {:induction false} LaterPairsAppend(a: seq<seq<string>>, b: seq<seq<string>>)
    ensures LaterPairs(a + b) == LaterPairs(a) + LaterPairs(b)
    decreases |b|
  {
    if |b| == 0 {
      assert a + b == a;
    } else {
      var c := b[..|b| - 1];
      assert (a + b)[..|a + b| - 1] == a + c;
      assert (a + b)[|a + b| - 1] == b[|b| - 1];
      LaterPairsAppend(a, c);
    }
  }

  /** A row that is kept adds exactly its pair. */
  lemma LaterPairsOfOne(row: seq<string>)
    ensures LaterPairs([row]) == (if KeptRow(row).Some? then [KeptRow(row).value] else [])
  {
    assert [row][..0] == [];
  }

  /** The pair of a page: the alignment, or no pairs when it raised. */
  function PageAlignment(outcome: Result<seq<Pair>, string>): seq<Pair> {
    match outcome
    case Ok(pairs) => pairs
    case Err(_) => []
  }

  /** `batch_align_pages(page_pairs, ...)`: one list per page, in page order.
      `align(i)` is the outcome of aligning page `i`. */
  method BatchAlignPages(pages: seq<(string, string)>, align: nat -> Result<seq<Pair>, string>)
    returns (results: seq<seq<Pair>>)
    ensures |results| == |pages|
    ensures forall i :: 0 <= i < |pages| ==> results[i] == PageAlignment(align(i))
    ensures forall i :: 0 <= i < |pages| && align(i).Err? ==> results[i] == []
  {
    results := [];
    for i := 0 to |pages|
      invariant |results| == i
      invariant forall j :: 0 <= j < i ==> results[j] == PageAlignment(align(j))
    {
      var outcome := align(i);
      if outcome.Ok? {
        results := results + [outcome.value];
      } else {
        results := results + [[]];
      }
    }
  }
}
