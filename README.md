# NICO-forge 2.0 bilingual pipeline — a Dafny model

NICO-forge 2.0 builds an English–Hindi parallel corpus. It extracts page text from
paired PDFs (or reads JSON/JSONL dumps), splits both sides into sentences, groups them
into chunks, aligns the chunks, filters the pairs with quality rules and an optional
LLM verification, and writes rows to CSV or JSONL. The long-running scripts share one
engine: a **resumable batch runner**. It has three parts:

- a checkpoint store: a set of processed entry ids and four counters, persisted to a file;
- a retry loop with exponential backoff, around a failure-prone work function;
- batch and stream drivers. Each result goes to a per-result callback, which writes
  output, marks the checkpoint and saves it every N results.

This project models that engine and the data transforms around it. Each core source
file is one module.

- **Stateful parts are classes whose methods update fields:**
  - `CheckpointStore.CheckpointManager`, and its non-atomic duplicate `Colab.ColabCheckpoint`;
  - the row dictionary `CsvWriter.RowData`;
  - the output files `CsvWriter.CsvFile` and `CsvWriter.JsonLinesFile`.
- **Loops are methods with invariants,** each proved against a reference function:
  - the retry loop;
  - the batch and stream drivers;
  - the `on_progress` callbacks;
  - chunking;
  - match dedup;
  - the per-page accept/reject loop;
  - the `<csv>` response parser;
  - the Phase 1 classifier.
- **Pure transforms are functions,** with lemmas stating what the source promises:
  - sentence splitting;
  - alignment;
  - the quality rules;
  - whitespace normalisation;
  - the markdown-fence stripper, modelled once for the scripts that repeat it;
  - flag handling.

The outside world enters as parameters:
- every LLM or HTTP call is an abstract outcome;
- a PDF page is a given text;
- a JSON decoder or regex `findall` is a given function;
- a file is an abstract persisted value;
- the thread pool's completion order is a permutation.

Shared helpers:
- `Strings`: Python `str` operations over `seq<char>`, with an explicit whitespace set
  for `strip`/`\s`;
- `Sequences`: grouping by `range(0, n, k)`, flattening, permutations, dedup;
- `Wrappers`: `Option` and `Result`;
- `Whitespace`: the `re.sub` whitespace squeezers;
- `RegexEngine`, `Fence` and `Progress`: dedup, the fence stripper, the "save is due" test and
  the write loop that stops at the first raise;
- `Json`: the values `json.loads` returns, with `len`, iteration, `dict.get` and `KeyError`.

Where documentation and code disagree, the model follows the code:
- `normalize_whitespace` (modules/extractor.py:58) is documented as collapsing newline
  runs "into one", but the code collapses them into two, so the model keeps `\n\n`.
- `process_batch` defaults a missing `entry_num` to the entry's index
  (utils/parallel_llm.py:164). The resume filters default it to `0`
  (chunk_sentences_phase2_optimized.py:179). The same entry can therefore be recorded
  under one id and looked up under another. For that reason the "nothing left after a
  completed run" property is proved only for entries that carry `entry_num`
  (`Phase2.CompletedRunCoversNumbered`).
- The deep-clean script overwrites every `entry_num` with its line number, so the
  property holds there for every entry (`DeepClean.CompletedRunCoversAll`).
  `Colab.CompletedRunCoversAll` holds because the colab copy defaults to `0` on both sides.
- The colab checkpoint is dumped straight into the target file. A dump that fails part
  way leaves an unreadable file, and a restart then loses every id (`Colab.TornSave`).
  The `utils` store writes a temporary file and replaces the target, so a failed save
  keeps the old one (`CheckpointStore.CheckpointManager.Save`).
- The Phase 2 and deep-clean work functions catch every error of the model call. An
  entry therefore counts as successful even when the model's answer was unusable. It
  fails only when a key the prompt reads is missing, which raises `KeyError` before the
  `try`, or, in Phase 2, when the answer decodes to a value without a length, so the
  retry loop's `len` raises (`Phase2.AlignedIff`, `DeepClean.BatchShape`).
- A chunk the `on_progress` write loop cannot handle (not an object, a missing key in
  the colab copy, a text that is not a string in Phase 2) raises out of the callback.
  Phase 2 and deep clean then save and re-raise; the colab copy has no handler and makes
  no final save (`Phase2.ProcessPhase2`, `Colab.ProcessOptimized`).

## Model

| member | source | states |
|---|---|---|
| Aligner.Pad | modules/aligner.py:25-26 | the padded list has length `max(len, n)`, keeps every original element at its index and holds `""` beyond it |
| Aligner.Zip | modules/aligner.py:29 | `zip` stops at the shorter list and pairs the elements index by index |
| Aligner.AlignChunks | modules/aligner.py:22-31 | the result has `max(len(eng), len(hin))` pairs; pair `i` holds `eng[i]` and `hin[i]`, each replaced by `""` past the end of its list |
| Aligner.AlignEqualLengths | modules/aligner.py:25-29 | lists of equal length are paired without padding: the first projection is the English list and the second the Hindi list |
| Aligner.ThreeAndTwo | test_modules.py:81-86 | three English and two Hindi chunks give three pairs, the last with an empty Hindi side |
| Chunker.CreateChunks | modules/chunker.py:10-32 | an absent size is `CHUNK_SIZE` (3); size 0 is the error `range()` raises, a negative size yields no chunks, and a positive size yields exactly the space-joined slices of `size` sentences, built by the stepped loop |
| Chunker.Chunks | modules/chunker.py:27-30 | there are ceil(n / k) chunks |
| Chunker.ChunkAt | modules/chunker.py:28-30 | chunk `j` is the space-join of `sentences[j*k : (j+1)*k]` |
| Chunker.ChunkSentences | modules/chunker.py:27-30 | the chunks join the consecutive groups of the input, whose concatenation is the input; every group holds 1 to k sentences and all but the last exactly k |
| Chunker.FiveInTwos | test_modules.py:62-65 | five sentences in chunks of 2 give 3 chunks, the first "One. Two." |
| Splitter.DelimIndex | modules/splitter.py:29 | the index where the first delimiter run starts: no delimiter before it, and a delimiter at it unless it is the end of the text |
| Splitter.DropRun | config.py:118-119 | the `+` of the delimiter class: what is left after a run is a suffix that does not start with a delimiter |
| Splitter.DropRunDrops | config.py:118-119 | everything a run removes is a delimiter |
| Splitter.Split | modules/splitter.py:29 | `re.split` yields at least one piece and no piece holds a delimiter of the class |
| Splitter.SplitKeepsOrder | modules/splitter.py:29-32 | read in order, the pieces are the text with its delimiters taken out: nothing is lost or reordered |
| Splitter.SplitSentence | modules/splitter.py:29 | a delimiter-free stretch, one mark and a rest not starting with a mark split into the stretch followed by the pieces of the rest |
| Splitter.SplitSentences | modules/splitter.py:11-34 | every sentence returned is non-empty and stripped |
| Splitter.SentencesFree | modules/splitter.py:23-32 | no sentence holds a delimiter of the class the language selects (`.!?`, plus U+0964 for `hindi` in any letter case) |
| RegexEngine.ExtractPatterns | modules/regex_engine.py:24-44 | `None` patterns mean the configured defaults; the two loops return exactly the first occurrences, in order, of the matches of every pattern in list order, a pattern whose `findall` raises contributing nothing |
| RegexEngine.DedupStep | modules/regex_engine.py:41-44 | one step of the `seen` loop: a match is appended exactly when it is not among those before it, and `seen` grows by it |
| RegexEngine.AllMatchesAppend | modules/regex_engine.py:30-36 | the matches of a list of patterns are those of its first part followed by those of the rest |
| RegexEngine.InAllMatches | modules/regex_engine.py:30-36 | a string is among the collected matches exactly when some pattern's `findall` found it |
| RegexEngine.ExtractedMatches | modules/regex_engine.py:38-44 | the output has no duplicates, and a string is in it exactly when some pattern matched it |
| RegexEngine.InvalidPatternSkipped | modules/regex_engine.py:31-36 | a pattern raising `re.error` is skipped: the matches are those the other patterns give on their own |
| RegexEngine.EarlierPatternsFirst | modules/regex_engine.py:30-44 | the distinct matches of the first patterns come first and are unchanged by the patterns after them |
| Sequences.DedupProperties | modules/regex_engine.py:39-44 | first-occurrence deduplication keeps exactly the values of its input, each once |
| Sequences.DedupOfNoDup | modules/regex_engine.py:39-44 | a list without duplicates is its own deduplication |
| Sequences.GroupsFlatten | chunk_sentences_phase1.py:57-65 | the groups, read in order, are exactly the sentences |
| Sequences.GroupsShape | chunk_sentences_phase1.py:57-65 | every group holds between one and `chunk_size` sentences, and every group but the last holds exactly `chunk_size` |
| Sequences.GroupsUnique | chunk_sentences_phase1.py:57-65 | any division of the sentences with that shape is the grouping itself |
| Sequences.GroupsCount | chunk_sentences_phase1.py:57-65 | there are `ceil(len / chunk_size)` groups |
| Sequences.GroupsAt | chunk_sentences_phase1.py:60-61 | group `j` is the slice `sentences[j*k : j*k + k]`, cut at the end |
| Sequences.Range | utils/parallel_llm.py:169 | `range(n)` lists `0..n-1` in order |
| Sequences.PermutationBounds | utils/parallel_llm.py:169 | a completion order of `n` tasks has length `n` and names only tasks below `n` |
| Sequences.Permuted | utils/parallel_llm.py:169 | results taken in a completion order: position `j` holds the result of task `order[j]` |
| Sequences.PermutedMultiset | utils/parallel_llm.py:169 | whatever order tasks complete in, the same results are collected |
| Extractor.NormalizeWhitespace | modules/extractor.py:51-72 | the normalised text has no whitespace at either end and is never longer than the input |
| Extractor.NormalizedShape | modules/extractor.py:65-72 | the normalised text has no two consecutive spaces, no three consecutive newlines, and no whitespace at either end |
| Extractor.NormalizeIdempotent | modules/extractor.py:65-72 | normalising twice gives what normalising once gives |
| Whitespace.DropLeading | modules/extractor.py:66 | what is left after a run of one character is a suffix that does not start with it |
| Whitespace.SqueezeSpaces | modules/extractor.py:66 | squeezing space runs never lengthens the text and keeps its first character |
| Whitespace.SqueezeNewlines | modules/extractor.py:69 | squeezing newline runs never lengthens the text and keeps its first character |
| Whitespace.SquashSpace | clean_pib_bilingual.py:34 | squashing whitespace runs never lengthens the text, and its first character is a space exactly when the input starts with whitespace |
| Whitespace.SqueezeSpacesNoDouble | modules/extractor.py:66 | after `re.sub(' +', ' ')` no two spaces are adjacent |
| Whitespace.SqueezeSpacesNoop | modules/extractor.py:66 | text without two adjacent spaces is left as it is |
| Whitespace.SqueezeNewlinesNoTriple | modules/extractor.py:69 | after `re.sub('\n\n+', '\n\n')` no three newlines are adjacent: a run becomes exactly two |
| Whitespace.SqueezeNewlinesKeepsSpacing | modules/extractor.py:66-69 | collapsing newline runs does not bring two spaces together |
| Whitespace.SqueezeNewlinesNoop | modules/extractor.py:69 | text without three adjacent newlines is left as it is |
| Whitespace.SquashSpaceSingle | clean_pib_bilingual.py:34 | after `re.sub(r'\s+', ' ')` every whitespace character is a space and none is followed by another |
| Whitespace.SquashSpaceNoop | clean_pib_bilingual.py:34 | single-spaced text is left as it is |
| Whitespace.StripNoDoubleSpace | modules/extractor.py:72 | stripping keeps the no-double-space property |
| Whitespace.StripNoTripleNewline | modules/extractor.py:72 | stripping keeps the no-triple-newline property |
| Whitespace.StripSingleSpaced | clean_pib_bilingual.py:37 | stripping keeps the single-spaced property |
| PibCleaner.CleanText | clean_pib_bilingual.py:17-39 | the cleaned text has no whitespace at either end |
| PibCleaner.ReplaceLeavesNone | clean_pib_bilingual.py:31 | after replacing every backslash-`n` pair by a space, no such pair is left, and none is made by the replacement |
| PibCleaner.SquashKeepsNone | clean_pib_bilingual.py:34 | squashing whitespace runs makes no backslash-`n` pair |
| PibCleaner.StripKeepsNone | clean_pib_bilingual.py:37 | stripping makes no backslash-`n` pair |
| PibCleaner.CleanedShape | clean_pib_bilingual.py:27-39 | the cleaned text holds no backslash-`n` pair, its only whitespace is single spaces, and it has no whitespace at either end |
| PibCleaner.NoneContained | clean_pib_bilingual.py:31 | a text without a backslash-`n` pair does not contain the two-character string that `replace` looks for |
| PibCleaner.CleanIdempotent | clean_pib_bilingual.py:27-39 | cleaning twice gives what cleaning once gives |
| PibCleaner.CleanFieldShape | clean_pib_bilingual.py:27-28 | a field that cleans (missing, a string, or a false JSON value, which gives `""`) gives a cleaned text (also clean_pib_bilingual.py:70-75) |
| PibCleaner.ProcessJsonlFile | clean_pib_bilingual.py:50-95 | the line loop writes, in order, the entry of each line that decodes to an object whose two values clean, skipping the others without stopping; `processed_count` is the number of entries written and `total_entries` the number of lines |
| PibCleaner.CleanedCount | clean_pib_bilingual.py:62-95 | at most one entry per line, and exactly one per line when every line decodes and cleans |
| PibCleaner.CleanedEntries | clean_pib_bilingual.py:74-84 | every entry written is a pair of cleaned texts |
| QualityFilter.LengthRatio | modules/quality_filter.py:25-28 | the ratio is never negative and is 0 for an empty English side |
| QualityFilter.RatioInRange | modules/quality_filter.py:81-84 | for a non-empty English side, the ratio lies in [0.5, 3.5] exactly when `2·len(eng) <= 4·len(hin) <= 14·len(eng)` |
| QualityFilter.CountedCharsZero | modules/quality_filter.py:47 | the count of characters other than spaces and newlines is 0 exactly when the text holds only those two |
| QualityFilter.ValidateHindiScript | modules/quality_filter.py:31-53 | the check never holds for a text without a counted character, and at a threshold of 0 or below it holds exactly when the text has one |
| QualityFilter.ValidateHindiScriptIff | modules/quality_filter.py:42-53 | at the default threshold 0.3 the check holds exactly when some counted character exists and at least three in ten counted characters are in U+0900–U+097F |
| QualityFilter.OnlySpacesFail | modules/quality_filter.py:42-50 | empty text, or text of spaces and newlines only, fails the check at any threshold |
| QualityFilter.BlankFailsScript | modules/quality_filter.py:42-53 | whitespace-only text fails the check at any positive threshold |
| QualityFilter.FirstKeyword | modules/quality_filter.py:96-98 | the keyword reported occurs in the text, and none is reported exactly when no keyword occurs |
| QualityFilter.KeywordRule | modules/quality_filter.py:90-98 | the metadata rule rejects exactly when some keyword occurs in `eng_chunk[:50]`, the first in list order being reported |
| QualityFilter.BlankRule | modules/quality_filter.py:100-102 | the blank rule rejects exactly when either side strips to nothing |
| QualityFilter.ValidateChunkPair | modules/quality_filter.py:56-104 | a passing pair has both lengths and the ratio within their bounds, enough Devanagari, no metadata keyword in its first 50 English characters, and neither side blank |
| QualityFilter.FirstFailingRule | modules/quality_filter.py:67-104 | the verdict names a rule that fails, and every rule tried before it holds, in the order English short, Hindi short, English long, Hindi long, ratio, script, metadata, blank |
| QualityFilter.PassIffNoRuleFails | modules/quality_filter.py:67-104 | `(True, "PASS")` is returned exactly when none of the eight rules rejects the pair |
| QualityFilter.PassBounds | modules/quality_filter.py:68-88 | a passing pair has 20 ≤ len(eng) ≤ 1000, 20 ≤ len(hin) ≤ 1500, a ratio in [0.5, 3.5] and enough Devanagari |
| QualityFilter.BlankRuleIsEnglish | modules/quality_filter.py:86-102 | a pair rejected as blank has a whitespace-only English side and a Hindi side that is not: a blank Hindi side is rejected earlier by the script rule |
| QualityFilter.QualityLabel | modules/quality_filter.py:186-193 | EXCELLENT exactly from 0.85, GOOD on [0.70, 0.85), FAIR on [0.50, 0.70), POOR below 0.50 |
| QualityFilter.LabelMonotone | modules/quality_filter.py:186-193 | a higher score never gets a lower label |
| TextCleaner.CleanWith | modules/text_cleaner.py:27-55 | either cleaner returns `""` for an empty text and otherwise a text with no whitespace at either end, whatever its substitutions do (also modules/text_cleaner.py:74-106) |
| TextCleaner.CleanChunk | modules/text_cleaner.py:120-123 | the Hindi cleaner runs exactly when `language.lower() == 'hindi'`, the English one otherwise; an empty chunk stays empty and the result is stripped |
| TextCleaner.IsChunkValid | modules/text_cleaner.py:126-159 | a valid chunk has at least 10 characters inside its outer whitespace, and a valid Hindi chunk holds at least 5 Devanagari characters |
| TextCleaner.ChunkValidIff | modules/text_cleaner.py:137-159 | a chunk is valid exactly when its stripped text has at least 10 characters and is not a metadata line and, for Hindi, the chunk holds at least 5 characters in U+0900–U+097F |
| TextCleaner.HeadingParts | modules/text_cleaner.py:142-144 | "Chapter", "Page" or "Exercise" in any letter case, then whitespace, then digits to the end, matches its pattern |
| TextCleaner.HeadingInvalid | modules/text_cleaner.py:141-151 | a chunk that is only such a heading, with any whitespace around it, is invalid in either language |
| TextCleaner.MetadataInvalid | modules/text_cleaner.py:149-151 | a chunk whose stripped text matches a metadata pattern is invalid |
| TextCleaner.LanguageOnlyCountsScript | modules/text_cleaner.py:153-159 | for Hindi, fewer than 5 Devanagari characters make the chunk invalid; otherwise the language makes no difference |
| CsvWriter.LeadingDigits | modules/csv_writer.py:183 | the `(\d+)` group: the longest prefix of digits, stopping before the first non-digit |
| CsvWriter.Search | modules/csv_writer.py:183-188 | a `re.search` hit yields a non-empty run of digits |
| CsvWriter.SearchNone | modules/csv_writer.py:183-190 | the search fails exactly when no position holds the word, whitespace and a digit |
| CsvWriter.SearchFirst | modules/csv_writer.py:183-190 | the search returns the number after the leftmost matching position |
| CsvWriter.ChapterOf | modules/csv_writer.py:183-190 | an element's chapter is a non-empty run of digits, and the English pattern's, when it matches, wins over the Hindi one |
| CsvWriter.ChapterIn | modules/csv_writer.py:181-192 | the loop over the decoded list returns digits only, possibly none |
| CsvWriter.ExtractChapterNumber | modules/csv_writer.py:165-195 | a list that cannot be decoded or iterated gives `""`; every result is digits |
| CsvWriter.ChapterFromFirstHeading | modules/csv_writer.py:181-190 | when the first `k` elements are strings without a heading and element `k` has one, the result is element `k`'s number, with the English pattern tried first |
| CsvWriter.ChapterStopsAtNonString | modules/csv_writer.py:183-195 | reaching a non-string element before any heading raises the caught `TypeError`, so the result is `""` |
| CsvWriter.ChapterAbsent | modules/csv_writer.py:192 | a list of strings none of which holds a heading gives `""` |
| CsvWriter.CreateRow | modules/csv_writer.py:236-244 | `translation_changed` is true exactly when the raw and verified texts differ and the verified one is non-empty; `char_count_hin` falls back to the raw length when the verified text is empty; the chapter number is taken from the regex matches |
| CsvWriter.RowColumns | modules/csv_writer.py:18-35 | the keys of a built row are exactly the sixteen `CSV_HEADERS` (also modules/csv_writer.py:246-263) |
| CsvWriter.RowPlace | modules/csv_writer.py:247-249 | `doc_id`, `page` and `chunk_id` are stored as given |
| CsvWriter.Stamped | modules/csv_writer.py:75-97 | the row gains a `timestamp` key; every existing value, an existing timestamp included, is kept; the current time is used only when the key was missing |
| CsvWriter.StampOnce | modules/csv_writer.py:75-76 | stamping a stamped row changes nothing, whatever the later time |
| CsvWriter.Cells | modules/csv_writer.py:68-79 | `DictWriter` writes one cell per header, in header order |
| CsvWriter.CreatedRowWritable | modules/csv_writer.py:246-263 | a built row keeps its own timestamp when appended, has no key outside the headers, and its last cell is that timestamp (also modules/csv_writer.py:75-79) |
| CsvWriter.RowData.constructor | modules/csv_writer.py:54 | the row dictionary holds the given fields |
| CsvWriter.CsvFile.constructor | modules/csv_writer.py:65 | before the first append the file does not exist |
| CsvWriter.CsvFile.AppendRow | modules/csv_writer.py:54-79 | the file exists afterwards; a new file first gets the header line; the caller's row is stamped in place; the row's cells are appended unless it has a key that is not a column, which `writerow` rejects |
| CsvWriter.JsonLinesFile.constructor | modules/csv_writer.py:100 | an empty JSON Lines file |
| CsvWriter.JsonLinesFile.AppendJsonLine | modules/csv_writer.py:82-101 | the caller's row is stamped in place and then appended as one line |
| LlmAlignment.CsvBlock | modules/llm_alignment.py:128-133 | a block exists exactly when the answer holds both `<csv>` and `</csv>`, and its text is stripped |
| LlmAlignment.FirstOccurrence | modules/llm_alignment.py:131-132 | `find` returns the leftmost occurrence |
| LlmAlignment.BlockBetweenFirstTags | modules/llm_alignment.py:131-133 | the block is the stripped text between the first `<csv>` and the first `</csv>`, and it is empty when the closing tag comes first |
| LlmAlignment.FirstRowPairs | modules/llm_alignment.py:140-144 | the first row gives at most one pair: exactly when it has two or more fields and its first field is not `english` in any case, and then its first two fields unstripped |
| LlmAlignment.ParsedPairs | modules/llm_alignment.py:136-156 | no more pairs than rows, and every pair after the first row's is two stripped, non-empty fields |
| LlmAlignment.ParseCsvResponse | modules/llm_alignment.py:111-156 | an answer without both tags is the `ValueError` with its message; otherwise the pairs read from the tokenised block |
| LlmAlignment.ReadRows | modules/llm_alignment.py:136-156 | the row loop yields the pairs of the first row followed by those of the later rows, in row order |
| LlmAlignment.LaterPairsSnoc | modules/llm_alignment.py:147-154 | each later row adds its pair at the end, or nothing |
| LlmAlignment.LaterPairsShape | modules/llm_alignment.py:148-154 | later rows add at most one pair each, and each pair is two stripped, non-empty fields |
| LlmAlignment.LaterPairsAppend | modules/llm_alignment.py:147-154 | the pairs of two runs of rows are the pairs of each, concatenated in order |
| LlmAlignment.LaterPairsOfOne | modules/llm_alignment.py:148-154 | one row with two or more fields whose first two are non-empty after stripping gives exactly that stripped pair; any other row gives nothing |
| LlmAlignment.BatchAlignPages | modules/llm_alignment.py:178-195 | one list per page, in page order; a page whose alignment raises gets `[]` |
| LlmVerifier.ExtractFlags | modules/llm_verifier.py:171-186 | the flags are `[UNCERTAIN]` exactly when the text holds the tag, and `""` exactly when it does not |
| LlmVerifier.RemoveFlags | modules/llm_verifier.py:189-202 | the cleaned text has no whitespace at either end |
| LlmVerifier.RemoveFlagsWithoutTag | modules/llm_verifier.py:200 | a text without the tag is only stripped |
| LlmVerifier.RemoveFlagsOfTagged | modules/llm_verifier.py:200 | one `[UNCERTAIN]` tag between two texts is removed and the texts are joined and stripped, when no tag starts inside the first text and the second holds none |
| LlmVerifier.CallFrom | modules/llm_verifier.py:81-124 | from attempt `a`, the loop makes no request when no attempt is left, and otherwise between one and the remaining number of requests, sleeping once fewer times than it requests |
| LlmVerifier.CallLlmApi | modules/llm_verifier.py:81-124 | the retry loop's result, its number of requests and its sleeps are those of the attempt-by-attempt reference `CallFrom` |
| LlmVerifier.CallShape | modules/llm_verifier.py:83-124 | with no attempts left the call raises the after-loop error without a request; otherwise it makes between one and the remaining number of requests, sleeps once fewer times, and sleeps only after a rate limit (for `delay * (attempt + 1)`) or a failed request (for `delay`) |
| LlmVerifier.CallResult | modules/llm_verifier.py:93-122 | the last request decides: the call returns exactly when it was a 200 with a readable `choices[0].message.content`, then with the stripped, flag-split content; a 429 or a failed request on it raises the retries-exceeded message; any other status, or a 200 whose body lacks that content, raises at once without a retry, the latter with the lookup's own error |
| LlmVerifier.LlmMap | modules/llm_verifier.py:26-40 | verification off gives the raw text and no flags; a missing key gives the raw text flagged `[NO_API_KEY]`; a raising call gives the raw text with a flag starting `[LLM_ERROR: `; otherwise the call's pair |
| LlmVerifier.VerifiedFlags | modules/llm_verifier.py:34-37 | when the call returns, the pair comes from the 200 that ended the loop, is flagged exactly when the stripped content holds the tag, and its text is stripped (also modules/llm_verifier.py:93-103) |
| LlmVerifier.CreateVerificationPrompt | modules/llm_verifier.py:141-168 | the translate-from-scratch prompt is chosen exactly when the Hindi text is empty or only whitespace; both prompts carry the English text, and the review prompt the Hindi text |
| Phase1.ChunkIntoGroups | chunk_sentences_phase1.py:57-65 | a group size of 0 is the `ValueError` of `range`, a negative one gives no groups, and a positive one gives the consecutive slices of that size |
| Phase1.GroupsPartition | chunk_sentences_phase1.py:61-65 | the groups, read in order, are the sentences; each holds one to `chunk_size` sentences, all but the last exactly `chunk_size`; there are ceil(n / chunk_size) of them |
| Phase1.Zip | chunk_sentences_phase1.py:113 | `zip` stops at the shorter list |
| Phase1.ZipIndex | chunk_sentences_phase1.py:113-119 | record `j` joins group `j` of each side with spaces and counts the English group's sentences |
| Phase1.MatchCount | chunk_sentences_phase1.py:104-106 | no more matched entries than entries |
| Phase1.ProcessPhase1 | chunk_sentences_phase1.py:81-130 | the loop's chunk records, mismatch records and statistics are those of the whole-list reference functions over the entries, numbered from 1 |
| Phase1.ProcessEntry | chunk_sentences_phase1.py:91-130 | one entry adds its chunk records or its mismatch record, and counts one match or one mismatch and its chunks |
| Phase1.PrefixStep | chunk_sentences_phase1.py:91 | the references over the first n+1 entries extend those over the first n by entry n+1's own records |
| Phase1.AppendPairs | chunk_sentences_phase1.py:113-120 | the pair loop appends exactly the zipped records and counts them |
| Phase1.CountsAddUp | chunk_sentences_phase1.py:84-123 | matched plus mismatched is the number of entries; `mismatched` is the number of mismatch records and `total_chunks_created` the number of chunk records |
| Phase1.MatchedEntryChunks | chunk_sentences_phase1.py:104-119 | a matched entry of n sentences per side yields ceil(n / 3) records, and record `j` joins the same run of sentences `3j..3j+2` on both sides |
| Phase1.MatchedSources | chunk_sentences_phase1.py:113-119 | every chunk record names a matched entry by its 1-based number and holds one to three sentences, and the records follow entry order |
| Phase1.MismatchedRecords | chunk_sentences_phase1.py:121-130 | every mismatch record carries its entry's number, texts and both (differing) sentence counts; numbers strictly increase; there is one record per entry that does not match |
| CheckpointStore.Loaded | utils/checkpoint_manager.py:42-53 | a missing or unreadable file gives no ids and zero statistics; a readable one gives the set of its listed ids (none when the key is absent) and its statistics (the defaults when absent) |
| CheckpointStore.CheckpointManager.constructor | utils/checkpoint_manager.py:23-40 | the manager starts from what loading its file gives |
| CheckpointStore.CheckpointManager.MarkProcessed | utils/checkpoint_manager.py:81-97 | the id joins the set and is then processed; `total_processed` grows by one, `successful` and `chunks_created` on success or `failed` otherwise; the file is untouched |
| CheckpointStore.CheckpointManager.GetStats | utils/checkpoint_manager.py:99-101 | the statistics as kept |
| CheckpointStore.CheckpointManager.GetRemainingCount | utils/checkpoint_manager.py:103-105 | the entries less the distinct ids marked, negative exactly when more ids were marked than there are entries |
| CheckpointStore.CheckpointManager.Save | utils/checkpoint_manager.py:55-75 | the state in memory is unchanged; a save that succeeds leaves a file that loads back to exactly that state; one that fails at any step leaves the old file, since the replace is atomic |
| CheckpointStore.CheckpointManager.Clear | utils/checkpoint_manager.py:107-119 | no ids, zero statistics, and no file |
| CheckpointStore.BumpBalanced | utils/checkpoint_manager.py:91-97 | a mark keeps `successful + failed == total_processed` |
| CheckpointStore.MarkTwice | utils/checkpoint_manager.py:90-91 | marking the same id twice keeps one id but counts two |
| CheckpointStore.ReplayIds | utils/checkpoint_manager.py:90 | from a fresh checkpoint the set is the ids marked, no more of them than marks |
| CheckpointStore.ReplayStats | utils/checkpoint_manager.py:91-97 | from a fresh checkpoint `total_processed` is the number of marks, `successful` the successes, `failed` the rest, `chunks_created` the chunks of successful marks, and the counts stay balanced |
| CheckpointStore.ReplayFrom | utils/checkpoint_manager.py:90-97 | marks only add ids; each counts once in `total_processed`, `successful` grows by the successes and `failed` by the rest |
| CheckpointStore.SaveAndResume | utils/checkpoint_manager.py:42-75 | a manager that marks a history and saves leaves a file that a new manager loads back as exactly the same ids and statistics |
| ParallelProcessor.Backoff | utils/parallel_llm.py:123-126 | the sleeps before attempt `n`, one per attempt that raised |
| ParallelProcessor.BackoffAt | utils/parallel_llm.py:125 | the sleep after attempt `a` is `2 ** a` seconds |
| ParallelProcessor.BackoffTotal | utils/parallel_llm.py:124-126 | the first `n` sleeps add up to `2 ** n - 1` seconds |
| ParallelProcessor.ProcessWithRetry | utils/parallel_llm.py:102-135 | the retry loop's result, number of calls and sleeps are those of the attempt-by-attempt reference `Retry` |
| ParallelProcessor.FirstReturnWins | utils/parallel_llm.py:104-118 | when attempts before `k` raise and attempt `k` returns, the result is a success with that attempt's chunks (none when the key is missing), their count and no error, after `k + 1` calls and the sleeps 1, 2, 4, ... |
| ParallelProcessor.Exhausted | utils/parallel_llm.py:120-135 | when every attempt raises, the result is a failure with no data, no chunks and the last attempt's message, after every attempt and a sleep after all but the last |
| ParallelProcessor.NoBudget | utils/parallel_llm.py:104-135 | with no attempts allowed no call is made and the result is a failure whose error is `None` |
| ParallelProcessor.RetryShape | utils/parallel_llm.py:102-135 | the result carries the entry id; it is a success exactly when some allowed attempt returns; a success has no error and counts its data, a failure has no data and no chunks; the calls never exceed the budget |
| ParallelProcessor.BatchResults | utils/parallel_llm.py:159-166 | one result per entry, in submission order, each the retry loop's result for that entry under its `entry_num`, or else its index, as id |
| ParallelProcessor.ProcessBatch | utils/parallel_llm.py:154-177 | the results are the submitted entries' results in the order the pool completes them, so a permutation of them, one per entry |
| ParallelProcessor.WindowResults | utils/parallel_llm.py:207-216 | one result per entry of a window |
| ParallelProcessor.StreamResultsLength | utils/parallel_llm.py:200-218 | the stream yields one result per entry |
| ParallelProcessor.FlushWindow | utils/parallel_llm.py:207-209 | processing a window appends its results after those of the earlier windows |
| ParallelProcessor.FlushFull | utils/parallel_llm.py:205-212 | a batch that reaches `batch_size` is processed as the next full window and the batch starts again |
| ParallelProcessor.ProcessStream | utils/parallel_llm.py:200-218 | the windows are consecutive runs of `batch_size` entries (one entry each when `batch_size` is below 1) with a shorter last one, and the results yielded are those of each window in turn, one per entry |
| ParallelProcessor.FlushLast | utils/parallel_llm.py:214-218 | a non-empty remainder is processed as the last window, and the windows are then the runs of the whole input |
| Progress.Marks | colab_optimized_standalone.py:337 | each handled result makes the mark of its own id, success flag and chunk count, in completion order (also chunk_sentences_phase2_optimized.py:229-233; llm_deep_clean_phase2_optimized.py:218-222) |
| Progress.Step | colab_optimized_standalone.py:321-341 | one more callback adds one more mark to the checkpoint and its lines to the output |
| Progress.MarkedId | colab_optimized_standalone.py:337 | every result handled has its id recorded |
| Progress.DueIffRemainderZero | colab_optimized_standalone.py:339 | `total_processed % interval == 0`, with Python's floored `%`, holds exactly when the running total is a whole number of intervals, for either sign (also chunk_sentences_phase2_optimized.py:236; llm_deep_clean_phase2_optimized.py:225) |
| Progress.IsDue | chunk_sentences_phase2_optimized.py:236 | the test computes exactly that condition |
| Progress.MultipleOfIff | colab_optimized_standalone.py:339 | counting in steps of `d` reaches the total exactly when the remainder is zero |
| Progress.DueStep | chunk_sentences_phase2_optimized.py:236-238 | one more callback adds its running total to the saves exactly when the save is due |
| Progress.DueCount | llm_deep_clean_phase2_optimized.py:225-227 | from a running total `base`, `n` callbacks make `(base + n) / interval - base / interval` interval saves |
| Progress.NextQuotient | colab_optimized_standalone.py:339 | one more result raises the number of whole intervals by one exactly when the new total is due |
| Progress.Handled | colab_optimized_standalone.py:373-378 | an interrupt leaves a prefix of the completed results handled; without one every result is handled |
| Progress.ScanStops | chunk_sentences_phase2_optimized.py:216-226 | once a chunk raises, the later chunks write nothing more (also colab_optimized_standalone.py:330-335) |
| Progress.ScanRaised | chunk_sentences_phase2_optimized.py:216-226 | the write loop raises exactly when some chunk's step raises |
| Progress.ScanShape | chunk_sentences_phase2_optimized.py:216-226 | the loop writes at most one line per chunk, and each line is what some chunk writes |
| Progress.ScanAll | colab_optimized_standalone.py:330-335 | one line per chunk exactly when every chunk writes one; the loop then does not raise and the lines are the chunks' lines in order |
| Progress.WriteUntilRaise | colab_optimized_standalone.py:330-335 | the write loop appends exactly the lines of the reference scan and raises exactly when it does (also chunk_sentences_phase2_optimized.py:216-226) |
| Progress.FirstCrash | utils/parallel_llm.py:169-175 | the position of the first result whose callback raises: none before it does, and the one there does |
| Resume.Unprocessed | colab_optimized_standalone.py:293-300 | the filter keeps no more entries than it is given (also chunk_sentences_phase2_optimized.py:176-183; llm_deep_clean_phase2_optimized.py:175-182) |
| Resume.UnprocessedMembers | colab_optimized_standalone.py:296 | an entry is kept exactly when it is in the list and its id was not recorded |
| Resume.UnprocessedAppend | chunk_sentences_phase2_optimized.py:177-180 | the filter of two lists in turn is the filter of each in turn, so the kept entries keep their order |
| Resume.UnprocessedOne | chunk_sentences_phase2_optimized.py:179 | one entry is kept exactly when its id is not recorded |
| Resume.NothingRecorded | llm_deep_clean_phase2_optimized.py:175-182 | with nothing recorded every entry is submitted |
| Resume.AllRecorded | colab_optimized_standalone.py:302-304 | when every id is recorded nothing is left, the case the early return handles |
| Resume.MoreRecorded | colab_optimized_standalone.py:296 | recording more ids only removes entries from what is submitted |
| Colab.ColabCheckpoint.constructor | colab_optimized_standalone.py:64-84 | the notebook's manager starts from what loading its file gives |
| Colab.ColabCheckpoint.MarkProcessed | colab_optimized_standalone.py:100-107 | the id is recorded and processed, one more mark is counted, the file is untouched |
| Colab.ColabCheckpoint.Save | colab_optimized_standalone.py:86-95 | the state in memory is unchanged; a write that succeeds leaves a file that loads back to the state; one whose open fails leaves the old file; one that fails while dumping leaves a file that cannot be read |
| Colab.TornSave | colab_optimized_standalone.py:75-95 | after marks and a save that fails while dumping, a restarted notebook starts with no ids and zero statistics, whatever it had recorded |
| Colab.AlignWithLlm | colab_optimized_standalone.py:226-263 | a missing prompt key raises its `KeyError` first; otherwise the call returns exactly when the stripped, unfenced answer decodes to a string, list or object, and then with what iterating that value visits; an API or decode error raises as it is, and a decoded value without a length raises the `TypeError` of `len` (also colab_optimized_standalone.py:159) |
| Colab.AlignedIffDecoded | colab_optimized_standalone.py:149-172 | an entry succeeds exactly when it holds the prompt keys and one of its three attempts gets an answer that decodes to a value with a length (also colab_optimized_standalone.py:226-263) |
| Colab.ColabBatch | colab_optimized_standalone.py:178-185 | one result per entry, in submission order |
| Colab.ColabResultId | colab_optimized_standalone.py:183 | an entry's result carries `entry.get('entry_num', 0)` |
| Colab.ProcessBatch | colab_optimized_standalone.py:174-193 | the results are the entries' results in completion order, each under its stored id, and under id 0 when the entry has no `entry_num` |
| Colab.SelectedIff | colab_optimized_standalone.py:293-300 | on resume the entries whose id is not recorded are submitted, otherwise all of them; with nothing recorded the two coincide |
| Colab.WrittenIffObjects | colab_optimized_standalone.py:330-335 | the write loop completes exactly when every chunk is an object holding both `english` and `hindi`, and then writes one line per chunk, in order, with its two values; otherwise it raises with fewer lines written than there are chunks |
| Colab.OnProgress | colab_optimized_standalone.py:321-341 | a success writes its chunks' lines until the first chunk that raises, a failure nothing; a callback that raises leaves the checkpoint unmarked and unsaved; otherwise the result is marked and the checkpoint saved exactly when the new `total_processed` is a multiple of 50 |
| Colab.Callbacks | colab_optimized_standalone.py:187-191 | the callbacks run up to the first result whose callback raises: the results before it are marked in order, their lines and the raising one's partial lines are written, and saves happen at exactly the due running totals (also colab_optimized_standalone.py:321-341) |
| Colab.ProcessOptimized | colab_optimized_standalone.py:269-378 | nothing to submit returns at once with nothing changed; otherwise the handled results are the completed ones, or a prefix on an interrupt; the marks replayed are those before the first raising callback; the output is appended to on resume and rewritten otherwise; a completed or interrupted run ends with a final save, a readable copy of the state when it succeeds, while a crash makes no final save |
| Colab.RunBatch | colab_optimized_standalone.py:343-378 | the batch, its callbacks up to the first raise, and the final save only when nothing raised |
| Colab.CompletedRunCoversAll | colab_optimized_standalone.py:293-304 | after a completed run a resumed run submits nothing (also colab_optimized_standalone.py:337, 352) |
| Colab.EntryRecorded | colab_optimized_standalone.py:296-337 | after a completed run every entry's stored id is recorded |
| Colab.SubmittedIfNew | colab_optimized_standalone.py:294-297 | an entry whose id is not recorded is submitted |
| Colab.SubmittedIsMarked | colab_optimized_standalone.py:183 | every submitted entry is marked under the id the filter looks up (also colab_optimized_standalone.py:337) |
| Phase2.AlignWithLlm | chunk_sentences_phase2_optimized.py:69-123 | a missing prompt key raises its `KeyError` before the `try`; otherwise the call returns, with success reported exactly when the stripped, unfenced answer decodes and with what iterating the decoded value visits (no chunks on an error), except that a decoded value without a length raises the `TypeError` of the retry loop's `len` (also utils/parallel_llm.py:117) |
| Phase2.AlignedIff | utils/parallel_llm.py:102-135 | an entry's result is a success exactly when it holds the prompt keys and one of its three replies does not decode to a value without a length (also chunk_sentences_phase2_optimized.py:81-86) |
| Phase2.FirstSizedWins | utils/parallel_llm.py:104-118 | when attempts before `k` decode to values without a length and attempt `k` does not, the entry takes `k + 1` calls and the sleeps 1, 2, ... before it, and succeeds with that reply's chunks and their count |
| Phase2.FailsAfterThree | utils/parallel_llm.py:120-135 | an entry that is not alignable takes three calls and the sleeps 1 and 2, and fails with no data and the `KeyError` or `TypeError` message of its last attempt |
| Phase2.SelectedIsUnprocessed | chunk_sentences_phase2_optimized.py:176-183 | the submitted entries are always those whose `entry_num` (default 0) is not recorded: with no ids recorded the filter keeps all of them |
| Phase2.ClearSubmitsAll | chunk_sentences_phase2_optimized.py:164-183 | after `--clear` every entry is submitted |
| Phase2.ChunkActionCases | chunk_sentences_phase2_optimized.py:216-226 | a chunk is written exactly when it is an object whose `english` and `hindi`, missing counting as empty, are strings non-empty after stripping, and then as those two strings; it raises exactly when it is not an object, its English is not a string, or its English is non-empty and its Hindi not a string |
| Phase2.WrittenLinesShape | chunk_sentences_phase2_optimized.py:217-226 | the write loop writes no more lines than there are chunks, and no line with a blank side |
| Phase2.StringChunksWritten | chunk_sentences_phase2_optimized.py:217-226 | objects whose two texts are strings never make the loop raise, and every chunk is written exactly when none of their texts is blank |
| Phase2.OnProgress | chunk_sentences_phase2_optimized.py:205-238 | a success writes its chunks' lines up to the first chunk that raises; a raising callback leaves the checkpoint unmarked and unsaved; otherwise the result is marked and the checkpoint saved exactly when the new `total_processed` is a multiple of the interval, a failed save leaving the old file |
| Phase2.Callbacks | chunk_sentences_phase2_optimized.py:205-238 | the callbacks run up to the first result whose callback raises: the results before it are marked in order, their lines and the raising one's partial lines are written, and saves happen at exactly the due running totals (also utils/parallel_llm.py:169-175) |
| Phase2.ProcessPhase2 | chunk_sentences_phase2_optimized.py:161-286 | `--clear` starts from nothing and removes the file; nothing to submit returns at once; otherwise the handled results, all or a prefix on an interrupt, are replayed on the starting checkpoint up to the first raising callback, the output is appended to on resume and rewritten otherwise, and the final save, made after a completed run, an interrupt or a raise alike, is a readable copy of the state when it succeeds |
| Phase2.RunBatch | chunk_sentences_phase2_optimized.py:240-286 | the batch, its callbacks up to the first raise, and the final save that every handler makes |
| Phase2.BatchOutcomes | utils/parallel_llm.py:159-175 | each result of a batch is a success exactly when its entry is alignable |
| Phase2.NoFailuresCounted | chunk_sentences_phase2_optimized.py:118-123 | when every entry is alignable, a run never adds to `failed`: each handled entry counts as successful, including those whose every reply failed to decode (also chunk_sentences_phase2_optimized.py:229-233) |
| Phase2.AllSuccess | utils/checkpoint_manager.py:93-97 | marks that all succeed add only to `successful` |
| Phase2.CompletedRunCoversNumbered | chunk_sentences_phase2_optimized.py:176-183 | when every entry carries `entry_num`, a completed run leaves nothing for a resumed run (also chunk_sentences_phase2_optimized.py:229-233, 250) |
| Phase2.NumberedIsMarked | utils/parallel_llm.py:164 | a submitted entry that carries `entry_num` is marked under it (also chunk_sentences_phase2_optimized.py:229-233) |
| DeepClean.CleanPair | llm_deep_clean_phase2_optimized.py:60-119 | a missing `english` or `hindi` raises its `KeyError` before the `try`; otherwise the call returns exactly one pair: when the answer decodes to an object, each side is its value there, defaulting to the entry's, with success; on any error or a non-object answer the entry's own pair, success false |
| DeepClean.FencedReplyCleans | llm_deep_clean_phase2_optimized.py:90-111 | a reply fenced as `json` whose body decodes to an object holding both keys gives exactly that object's pair |
| DeepClean.AnswerOfFenced | llm_deep_clean_phase2_optimized.py:93-97 | the text decoded from a reply fenced as `json` is its stripped body |
| DeepClean.CleanedOnce | utils/parallel_llm.py:104-118 | an entry holding both texts takes one call and no sleep, and succeeds with the one pair its reply cleans (also llm_deep_clean_phase2_optimized.py:113-119) |
| DeepClean.MissingKeyFails | utils/parallel_llm.py:120-135 | an entry missing either text takes three calls and the sleeps 1 and 2, and fails with no data and the `KeyError` of the first missing key (also llm_deep_clean_phase2_optimized.py:71-75) |
| DeepClean.Numbered | llm_deep_clean_phase2_optimized.py:164-169 | entry `i` keeps its pair and gets number `i`, counting from 1 |
| DeepClean.NumberedIds | llm_deep_clean_phase2_optimized.py:168 | every entry carries a number, and no two share one |
| DeepClean.NumberEntries | llm_deep_clean_phase2_optimized.py:165-169 | the loading loop numbers the entries exactly so |
| DeepClean.OnProgress | llm_deep_clean_phase2_optimized.py:204-227 | every pair of the result is written, failure or not; the entry is marked with `len(result.data)` chunks; the checkpoint is saved exactly when the new `total_processed` is a multiple of the interval, a failed save leaving the old file |
| DeepClean.Callbacks | llm_deep_clean_phase2_optimized.py:204-227 | the callbacks replay every handled result's mark, write their pairs in order, and save at exactly the due running totals (also utils/parallel_llm.py:169-175) |
| DeepClean.BatchShape | llm_deep_clean_phase2_optimized.py:232-236 | each result of a batch counts its data, and is a success exactly when its entry holds both texts; a success holds the one pair its reply cleans, a failure no pair (also utils/parallel_llm.py:104-135) |
| DeepClean.HandledCounted | utils/parallel_llm.py:117 | every handled result's chunk count is the length of its data (also llm_deep_clean_phase2_optimized.py:221) |
| DeepClean.ProcessDeepClean | llm_deep_clean_phase2_optimized.py:156-273 | `--clear` starts from nothing; nothing to submit returns at once; otherwise the handled results, all or a prefix on an interrupt, are replayed on the starting checkpoint, their pairs are written in completion order after the old output on resume, and a final save that succeeds is a readable copy of the state |
| DeepClean.RunBatch | llm_deep_clean_phase2_optimized.py:229-273 | the batch, its callbacks and the final save, as above |
| DeepClean.OnePairEach | llm_deep_clean_phase2_optimized.py:213-215 | when every handled result holds one pair, the run writes exactly those pairs, one per handled entry, in completion order |
| DeepClean.CompletedRunCoversAll | llm_deep_clean_phase2_optimized.py:166-182 | because the driver numbers the entries itself, a completed run leaves nothing for the next one (also llm_deep_clean_phase2_optimized.py:218-222, 239) |
| Fence.Unfence | colab_optimized_standalone.py:250-255 | an answer that does not start with three backticks is left as it is; the unfenced text of one that does is stripped (also chunk_sentences_phase2_optimized.py:103-108; llm_deep_clean_phase2_optimized.py:93-97) |
| Fence.SecondPieceNoFence | colab_optimized_standalone.py:252 | `split('```')[1]` holds no fence |
| Fence.UnfencedHasNoFence | colab_optimized_standalone.py:251-255 | the unfenced text of a fenced answer holds no fence |
| Fence.UnfenceIdempotent | chunk_sentences_phase2_optimized.py:103-108 | unfencing twice gives what unfencing once gives |
| Fence.FenceAfterBody | colab_optimized_standalone.py:252 | the closing fence after a body without backticks is the first one found |
| Fence.UnfenceTagged | chunk_sentences_phase2_optimized.py:104-108 | a `json`-tagged fence around a body gives the stripped body, whatever follows the closing fence |
| Fence.UnfenceUntagged | llm_deep_clean_phase2_optimized.py:93-97 | an untagged fence around a body not starting with `json` gives the stripped body |
| Rewat.FinalHindi | rewat_pipeline.py:120-136 | the verified Hindi when there is one, the cleaned Hindi otherwise |
| Rewat.Decide | rewat_pipeline.py:95-142 | a pair is rejected as invalid English exactly when the cleaned English fails the chunk check, as invalid Hindi exactly when only the cleaned Hindi fails it, as an invalid pair exactly when both pass but the pair validator fails; otherwise it becomes a row on page `page_num + 1` under its chunk id, with the cleaned texts, the final Hindi and the score of that final Hindi |
| Rewat.Decisions | rewat_pipeline.py:93 | one decision per aligned pair, by index |
| Rewat.Balance | rewat_pipeline.py:89-110 | every pair is either written or rejected (also rewat_pipeline.py:153) |
| Rewat.DecisionsIndexed | rewat_pipeline.py:93-133 | each written row carries the index of its pair |
| Rewat.RowsOfAccepted | rewat_pipeline.py:93-153 | the written rows are exactly the accepted decisions, in increasing chunk order |
| Rewat.RowOrigin | rewat_pipeline.py:130-145 | each written row is the row of the pair its chunk id names |
| Rewat.RowsIncrease | rewat_pipeline.py:93 | chunk ids strictly increase down the written rows (also rewat_pipeline.py:145) |
| Rewat.RowWritten | rewat_pipeline.py:145 | every accepted pair's row is written |
| Rewat.Failed | rewat_pipeline.py:167-180 | a failed page reports no chunks, no rejections and `Page <n>: <message>` with the 1-based page number |
| Rewat.FirstWriteFailure | rewat_pipeline.py:145-167 | the first accepted pair whose write raises, if any; every earlier accepted pair was written |
| Rewat.PairsOutcomeShape | rewat_pipeline.py:93-180 | a page succeeds exactly when it has no error; then its chunks and rejections add up to the pairs and all accepted rows are written; a failure reports zeros; the rows written are always a prefix of the accepted rows |
| Rewat.PageOutcomeShape | rewat_pipeline.py:56-180 | as above for the page's own pairs; a page whose text cannot be extracted fails and writes nothing |
| Rewat.PageOutcome | rewat_pipeline.py:56-180 | the result carries the page number and an error exactly when it failed, and a failed page counts no chunks and no rejections |
| Rewat.RowsAppend | rewat_pipeline.py:93-153 | the rows of two runs of pairs are those of each in turn |
| Rewat.WrittenRows | rewat_pipeline.py:95-142 | every written row lies on page `page_num + 1` of its document, holds its pair's cleaned English and Hindi, and the verified Hindi when there is one |
| Rewat.ProcessPage | rewat_pipeline.py:56-180 | the page's result and rows are those of the reference `PageOutcome` |
| Rewat.ProcessPairs | rewat_pipeline.py:89-165 | the pair loop's result and rows are those of the reference over the page's decisions |
| Rewat.Judge | rewat_pipeline.py:95-142 | the checks of one pair compute its decision |
| Rewat.FailureAt | rewat_pipeline.py:145-167 | the first failing write of a prefix with no earlier failure is that of the whole page |
| Rewat.StepDecision | rewat_pipeline.py:93-153 | one more pair adds its row or one rejection |
| Rewat.LastIndex | rewat_pipeline.py:202-236 | the last occurrence of a character, or none |
| Rewat.BaseName | rewat_pipeline.py:202 | the path after its last `/`, holding none |
| Rewat.Stem | rewat_pipeline.py:202-236 | `Path.stem`: the name before its last `.`, the whole name when the dot is first or last or absent |
| Rewat.StemOfPdfName | rewat_pipeline.py:236 | the stem of `<stem>.pdf` is `<stem>` |
| Rewat.DictOf | rewat_pipeline.py:208-209 | the keys are the names listed |
| Rewat.DictOfLatest | rewat_pipeline.py:208-209 | a name maps to the path of its last entry |
| Rewat.LessIrreflexive | rewat_pipeline.py:235 | the string order of `sorted` is irreflexive |
| Rewat.LessTotal | rewat_pipeline.py:235 | it is total on distinct strings |
| Rewat.LessTrans | rewat_pipeline.py:235 | it is transitive |
| Rewat.InsertSorted | rewat_pipeline.py:235 | inserting a new name into a sorted list keeps it sorted and adds exactly that name |
| Rewat.SortNamesSorted | rewat_pipeline.py:235 | sorting distinct names gives a sorted permutation of them |
| Rewat.MatchingNames | rewat_pipeline.py:220-235 | the matching names are sorted and are exactly the names both folders list |
| Rewat.CommonNames | rewat_pipeline.py:220 | filtering, deduplicating and sorting the English names gives the intersection in sorted order |
| Rewat.FilterElems | rewat_pipeline.py:220 | keeping the names the other folder lists gives the intersection of the two name sets |
| Rewat.DistinctDocIds | rewat_pipeline.py:234-239 | in folders of `.pdf` names, no two matching pairs share a document id |
| Rewat.PdfNameStem | rewat_pipeline.py:208-236 | a listed name is its stem followed by `.pdf` |
| Rewat.FindMatchingPdfs | rewat_pipeline.py:183-245 | two files give one pair named by the English file's stem unless either path does not end in `.pdf` (in any case); two folders give one pair per shared name, sorted, with both paths and the stem, or an exit when either folder has no PDFs or they share none; a file and a folder exit |
| Rewat.PageResults | rewat_pipeline.py:292-295 | one result per page below the smaller page count, each of its own page |
| Rewat.ProcessPdfPair | rewat_pipeline.py:248-332 | a page count that cannot be read gives the failed document; otherwise the pages' results are collected in completion order and summarised |
| Rewat.ProcessPages | rewat_pipeline.py:290-302 | the collected results are the pages' results in completion order |
| Rewat.ProcessPageAt | rewat_pipeline.py:293 | one task gives its page's result |
| Rewat.TallyAppend | rewat_pipeline.py:313-315 | a sum over two runs of results is the sum over each |
| Rewat.TallyWithout | rewat_pipeline.py:313-315 | a sum is the sum without one result plus that result's share |
| Rewat.TallyMultiset | rewat_pipeline.py:313-315 | sums over the same results in any order agree |
| Rewat.SummaryIgnoresOrder | rewat_pipeline.py:299-332 | the statistics do not depend on the order the pages complete |
| Rewat.SummaryCounts | rewat_pipeline.py:313-327 | successful plus failed is the number of pages, and the status is `success` exactly when every page succeeded |
| Rewat.EveryPageOnce | rewat_pipeline.py:292-301 | each page below the smaller count is reported exactly once |
| SentenceSplit.KeptShape | chunk_sentences_phase1.py:38-52 | every sentence kept by strip-and-drop-empty is non-empty and stripped |
| SentenceSplit.KeptFromPieces | chunk_sentences_phase1.py:38-52 | every kept sentence is the stripped form of some piece of the split |
| SentenceSplit.HindiBreak | chunk_sentences_phase1.py:49 | the scan position stays within the text |
| SentenceSplit.HindiBreakIsFirst | chunk_sentences_phase1.py:49 | the scan stops at the leftmost match of an end mark (danda, `.`, `!`, `?`) followed by whitespace, and no match lies before it |
| SentenceSplit.HindiPieces | chunk_sentences_phase1.py:49 | `re.split` always yields at least one piece |
| SentenceSplit.SplitHindiSentences | chunk_sentences_phase1.py:43-54 | the Hindi sentences are non-empty and stripped |
| SentenceSplit.HindiSentencesNoBreak | chunk_sentences_phase1.py:43-54 | no Hindi sentence still holds an end mark followed by whitespace |
| SentenceSplit.HindiCut | chunk_sentences_phase1.py:49 | a break-free stretch, an end mark and a run of whitespace split off as one piece; the mark and the whole run are consumed |
| SentenceSplit.EnglishBreak | chunk_sentences_phase1.py:32 | the scan position stays within the text |
| SentenceSplit.EnglishBreakIsFirst | chunk_sentences_phase1.py:32 | the scan stops at the leftmost whitespace run that follows `.`, `!` or `?` and precedes a capital letter, and no match lies before it |
| SentenceSplit.EnglishPieces | chunk_sentences_phase1.py:32 | `re.split` always yields at least one piece |
| SentenceSplit.EnglishPiecesShape | chunk_sentences_phase1.py:32 | no piece holds a match; every piece but the last ends with an end mark (the lookbehind keeps it), and every piece but the first starts with a capital letter (the lookahead keeps it) |
| SentenceSplit.SplitEnglishSentences | chunk_sentences_phase1.py:14-40 | the English sentences, after masking the abbreviations and restoring their dots, are non-empty and stripped |
| Strings.LStrip | modules/text_cleaner.py:53 | `lstrip` removes exactly a leading run of whitespace: the result is a suffix, starts with no whitespace, and everything removed is whitespace |
| Strings.RStrip | modules/text_cleaner.py:53 | `rstrip` removes exactly a trailing run of whitespace: the result is a prefix, ends with no whitespace, and everything removed is whitespace |
| Strings.Strip | modules/text_cleaner.py:53 | `strip` yields a stripped text no longer than its input |
| Strings.StripShape | modules/text_cleaner.py:53 | the stripped text is the contiguous piece of the input between a leading and a trailing run of whitespace |
| Strings.StripIsPiece | modules/text_cleaner.py:53 | the stripped text is a contiguous piece of the input |
| Strings.StripOfStripped | modules/text_cleaner.py:53 | stripping is idempotent: a stripped text is its own strip (also modules/text_cleaner.py:104) |
| Strings.StripEmptyIffBlank | chunk_sentences_phase1.py:38 | `s.strip()` is empty exactly when `s` is all whitespace |
| Strings.StripKeepsCharsOf | chunk_sentences_phase1.py:38 | any property of every character of the input holds of every character of its strip |
| Strings.LStripOfBlankPrefix | chunk_sentences_phase1.py:49 | `lstrip` of whitespace followed by a text not starting with whitespace is that text |
| Strings.LowerAscii | modules/llm_alignment.py:141 | `lower` keeps the length and lowers each character in place |
| Strings.FindFrom | modules/llm_alignment.py:131-132 | the scan from `i` returns the first occurrence at or after `i`, and reports none exactly when there is none |
| Strings.Find | modules/llm_alignment.py:131-132 | `str.find` finds something exactly when the pattern occurs, and then at its leftmost occurrence |
| Strings.ReplaceAbsent | modules/llm_verifier.py:200 | `replace` of a pattern that does not occur leaves the text unchanged |
| Strings.ReplaceAfter | modules/llm_verifier.py:200 | with no occurrence starting before position `k`, `replace` keeps the first `k` characters and works on the rest |
| Strings.ReplaceSingle | modules/llm_verifier.py:200 | one occurrence between two texts is replaced when none starts inside the first and none lies in the second |
| Strings.ReplaceCharByNothing | modules/quality_filter.py:47 | replacing one character by nothing is removing every occurrence of it |
| Strings.RemoveCharMembers | modules/quality_filter.py:47 | what survives removing `c` is every other character of the text, and nothing else |
| Strings.DevanagariCount | modules/quality_filter.py:46 | the count of characters in U+0900..U+097F is at most the length |
| Strings.NatToString | modules/llm_verifier.py:111-115 | `str` of a non-negative integer is a non-empty run of decimal digits |
| Json.Len | utils/parallel_llm.py:117 | `len` gives a length exactly for a string, list or dict, and otherwise the message of the `TypeError` it raises |
| Json.Items | chunk_sentences_phase2_optimized.py:216 | iterating a value with a length visits as many values as `len` counts: a list's own items, a string's characters or a dict's keys, as strings |
| Json.Get | chunk_sentences_phase2_optimized.py:219 | a value found under a key is that key's member, and finding none means no member has the key |
| Json.HasIff | llm_deep_clean_phase2_optimized.py:73-75 | a dict holds a key exactly when one of its members is under it |
| Json.FirstMissing | chunk_sentences_phase2_optimized.py:80-86 | the key reported is the first of the prompt's keys, in reading order, that the entry lacks; none is reported exactly when the entry holds them all |

## Left out

- The rate limiter (utils/parallel_llm.py:14-43, colab_optimized_standalone.py:113-127) is left out: its behaviour is wall-clock time, `time.sleep` and a lock.
- The thread pool and `as_completed` scheduling are left out. A batch's completion order is a permutation parameter.
- Concurrent callbacks are modelled in one sequential order. Neither their interleaving nor the lock-free interleaving of written lines is modelled.
- File and console I/O are left out: JSON/JSONL reading and writing, CSV appends, `os.replace`/`os.remove` and directory creation. Files are abstract values; a save or write fault is a parameter.
- tqdm, `print`, logging and argparse are left out: they carry no state the model needs.
- The `pip install` at import time (colab_optimized_standalone.py:41) is left out.
- Every LLM or HTTP call is a given outcome or a given reply per attempt. The OpenAI client, `requests.post` and the global clients are not modelled.
- PDF access through PyMuPDF (`extract_page_text`, `get_page_count` in modules/extractor.py) is left out: it is a foreign library. Page texts and page counts are parameters.
- The JSON decoder, the CSV tokeniser and regex `findall` of the configured patterns are given functions.
- The `re.split`, `re.sub` and `re.search` calls whose patterns are fixed are written out as scans.
- The OCR-repair `re.sub` passes and `unicodedata.normalize('NFC')` of the text cleaners (modules/text_cleaner.py:30-50, 77-101) are a `Passes` parameter. Only their outer guarantees are proved.
- `calculate_quality_score` (modules/quality_filter.py:107-173) is left out: it is floating-point arithmetic.
- The `avg_quality` averaging (rewat_pipeline.py:156, 317-318) is left out for the same reason. The per-page score list is kept only as a count.
- `total_rejected` in `process_pdf_pair` is not modelled beyond the per-page counts.
- The ratio comparisons of the quality rules are exact real arithmetic, not IEEE floats. They agree for realistic text lengths.
- `str.lower()` is modelled on ASCII letters only. This is exact for the comparisons with "hindi" and "english".
- Case-insensitive literal matching also accepts the non-ASCII letters that Python folds to `i`, `s` and `k`.
- `\d` is modelled as ASCII digits plus Devanagari digits. Digits of other Unicode scripts are left out.
- `\s` and `str.strip()` use one explicit set of whitespace characters.
- Globbing and file existence checks are left out. A folder is a given listing of names.
- The `main()` functions, argument handling and the existence checks before a run are left out.
- The config.py constants are parameters, apart from the defaults that the source writes into a signature.
- The serial drivers llm_clean_bilingual.py, llm_deep_clean_phase2.py and chunk_sentences_phase2.py are not part of this model. Their fence strip is the one modelled in `Fence`.
- A KeyboardInterrupt is modelled as the results handled so far, a prefix, followed by the final save. An exception raised by an `on_progress` callback is modelled as a `Crashed` outcome: the Phase 2 and deep-clean handlers save and re-raise, the colab driver has no handler and does not save. Exceptions raised by file I/O are left out.
- In chunk_sentences_phase1.py, an entry missing the `english` or `hindi` key raises `KeyError`. That path is not modelled: every Phase 1 entry carries both texts. In the colab, Phase 2 and deep-clean drivers the missing key is modelled.
- An input line of the deep-clean script that is not a JSON object makes `entry['entry_num'] = i` fail while loading (llm_deep_clean_phase2_optimized.py:168). Loading is not modelled: every entry is a dictionary (`Json.Fields`) with its number kept beside it.
- JSON objects with a repeated key are modelled by their members in order; `Json.Get` finds the first, while `json.loads` keeps the last. The decoder is a given function and may produce either.
- Colab.ProcessOptimized: the lines written before a crash are kept in the output; Python's output buffering, which could lose them, is not modelled.
- `initialize_csv`, `initialize_json_array`, `append_json_array_item` and `finalize_json_array` (modules/csv_writer.py:38-51, 104-152) are file helpers outside the modelled row logic.
- `align_with_llm` in modules/llm_alignment.py:55-108 is one LLM call. It is the given outcome that `batch_align_pages` consumes.
- SentenceSplit.EnglishPiecesShape: the claim that the listed abbreviations never end a sentence is not proved. Only the masking and restoring of their dots is modelled.
- Splitter.SplitSentences: the concrete test strings (test_modules.py:39-46) are not restated as lemmas. Only the general properties are proved.
- Extractor.NormalizedShape: the concrete example with three newlines is not restated as a lemma.
- RegexEngine.ExtractPatterns: the example patterns of test_modules.py:102-110 are not restated, because their matches come from a given `findall`.
- Phase2.CompletedRunCoversNumbered: covers only entries that carry `entry_num`, because of the default-id mismatch described above.
- CheckpointStore.Loaded: a checkpoint document is assumed well-typed, in `CheckpointStore.CheckpointManager` and in `Colab.ColabCheckpoint` alike. `_load` also accepts a `stats` value that is partial, empty, `null` or not an object, and ids that are not integers (utils/checkpoint_manager.py:48-49, colab_optimized_standalone.py:80-81). After such stats the first `mark_processed` raises `KeyError` or `TypeError` (utils/checkpoint_manager.py:91-97), a crashing callback in every driver; such ids load but never match an `entry_num`. Neither case is modelled.
- Progress.IsDue: `total % interval` with an interval of `0` raises `ZeroDivisionError` in the source. The model requires a non-zero interval.
- Phase2.ProcessPhase2: a `checkpoint_interval` of `0` makes the first callback raise `ZeroDivisionError` after it has written its lines and marked its entry; the handler then saves and re-raises. The model requires a non-zero interval, so that run is not modelled.
- DeepClean.ProcessDeepClean: a `checkpoint_interval` of `0` makes the first callback raise `ZeroDivisionError` after it has written its line and marked its entry; the handler then saves and re-raises. The model requires a non-zero interval, so that run is not modelled.
- Rewat.ProcessPage: one write fault stands for both `append_row` and `append_json_line` (rewat_pipeline.py:145-150). A row whose CSV append succeeds before its JSON-lines append fails is modelled as not written, and the JSON-lines copy of the rows is not modelled.
- Rewat.ProcessPairs: inherits the single write fault of `Rewat.ProcessPage`, so it does not distinguish the CSV file from the JSON-lines file either.
