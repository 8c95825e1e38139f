/** `modules/text_cleaner.py`: the two language cleaners, the language dispatch, and
    the chunk validity check. The OCR-repair substitutions and the Unicode
    normalisation inside the cleaners are parameters. */
module TextCleaner {
  import opened Strings
  import opened Whitespace

  /** The substitutions a cleaner makes that are not part of this model: `before`
      runs ahead of the space and newline squeezing (page-number lines, OCR spacing or
      duplicate marks, NFC), `after` between it and the final strip (artifact
      removal). */
  datatype Passes = Passes(before: string -> string, after: string -> string)

  /** The shape both `clean_english_text` and `clean_hindi_text` share: the empty
      text as it is, otherwise the passes, `re.sub(' {2,}', ' ')`,
      `re.sub('\n{3,}', '\n\n')`, the artifact passes, and a strip. */
  function CleanWith(text: string, p: Passes): (r: string)
    ensures IsStripped(r)
    ensures |text| == 0 ==> r == ""
  {
    if |text| == 0 then ""
    else Strip(p.after(SqueezeNewlines(SqueezeSpaces(p.before(text)))))
  }

  /** `clean_chunk(chunk, language)`: the Hindi cleaner exactly when
      `language.lower() == 'hindi'`, the English one otherwise. Either way an empty
      chunk stays empty and the result has no whitespace at either end. */
  function CleanChunk(chunk: string, language: string, english: Passes, hindi: Passes): (r: string)
    ensures IsStripped(r)
    ensures |chunk| == 0 ==> r == ""
    ensures IsHindi(language) ==> r == CleanWith(chunk, hindi)
    ensures !IsHindi(language) ==> r == CleanWith(chunk, english)
  {
    if IsHindi(language) then CleanWith(chunk, hindi) else CleanWith(chunk, english)
  }

  /** `\s+\d+$` at the start of `t`: whitespace, then digits to the end. */
  predicate SpacesThenDigits(t: string) {
    var d := LStrip(t);
    0 < |d| < |t| && AllDigits(d)
  }

  /** `re.match(word + r'\s+\d+$', s, re.IGNORECASE)` for a letter word. */
  predicate WordNumber(s: string, word: string) {
    |word| <= |s| && EqualsIgnoreCase(s[..|word|], word) && SpacesThenDigits(s[|word|..])
  }

  /** The metadata patterns, matched against the stripped chunk: a bare chapter, page
      or exercise heading, a bare number, or a leading copyright sign. */
  predicate IsMetadata(s: string) {
    || WordNumber(s, "Chapter")
    || WordNumber(s, "Page")
    || WordNumber(s, "Exercise")
    || (|s| > 0 && AllDigits(s))
    || (|s| > 0 && s[0] == '©')
  }

  /** `is_chunk_valid(chunk, language)`. */
  predicate IsChunkValid(chunk: string, language: string)
    ensures IsChunkValid(chunk, language) ==> 10 <= |Strip(chunk)| <= |chunk|
    ensures IsChunkValid(chunk, language) && IsHindi(language) ==> DevanagariCount(chunk) >= 5
  {
    if |chunk| == 0 || |Strip(chunk)| < 10 then false
    else if IsMetadata(Strip(chunk)) then false
    else if IsHindi(language) && DevanagariCount(chunk) < 5 then false
    else true
  }

  /** A chunk is valid exactly when it has ten characters inside its outer whitespace,
      is not a metadata line, and, for Hindi, holds five Devanagari characters. */
  lemma ChunkValidIff(chunk: string, language: string)
    ensures IsChunkValid(chunk, language)
            <==> |Strip(chunk)| >= 10 && !IsMetadata(Strip(chunk))
                 && (IsHindi(language) ==> DevanagariCount(chunk) >= 5)
  {
    if |chunk| == 0 {
      assert |Strip(chunk)| == 0;
    }
  }

  /** The two halves of a heading line: `prefix` a heading word in any case, `gap`
      whitespace and `number` digits. */
  lemma HeadingParts(word: string, prefix: string, gap: string, number: string)
    requires |word| > 0 && EqualsIgnoreCase(prefix, word)
    requires |gap| > 0 && IsBlank(gap) && |number| > 0 && AllDigits(number)
    ensures WordNumber(prefix + gap + number, word)
  {
    var s := prefix + gap + number;
    assert s[..|word|] == prefix;
    assert s[|word|..] == gap + number;
    LStripOfBlankPrefix(gap, number);
  }

  /** A line that is only "Chapter", "Page" or "Exercise" in any case, whitespace and a
      number is rejected in either language, with or without whitespace around it. */
  lemma HeadingInvalid(word: string, prefix: string, gap: string, number: string,
                       outer: string, language: string)
    requires word == "Chapter" || word == "Page" || word == "Exercise"
    requires EqualsIgnoreCase(prefix, word)
    requires |gap| > 0 && IsBlank(gap) && |number| > 0 && AllDigits(number) && IsBlank(outer)
    ensures !IsChunkValid(outer + prefix + gap + number + outer, language)
  {
    var line := prefix + gap + number;
    HeadingParts(word, prefix, gap, number);
    assert IsMetadata(line);
    assert 'A' <= word[0] <= 'Z' && Fold(prefix[0]) == Fold(word[0]);
    FoldedLetterIsNoSpace(prefix[0], word[0]);
    assert line[0] == prefix[0];
    assert line[|line| - 1] == number[|number| - 1];
    assert IsStripped(line);
    StripBetweenBlanks(outer, line);
    Regroup(outer, prefix, gap, number);
    MetadataInvalid(outer + line + outer, language);
  }

  lemma Regroup(o: string, a: string, b: string, c: string)
    ensures o + a + b + c + o == o + (a + b + c) + o
  {
  }

  /** A chunk whose stripped text is a metadata line is rejected. */
  lemma MetadataInvalid(chunk: string, language: string)
    requires IsMetadata(Strip(chunk))
    ensures !IsChunkValid(chunk, language)
  {
  }

  lemma FoldedLetterIsNoSpace(c: char, l: char)
    requires 'A' <= l <= 'Z' && Fold(c) == Fold(l)
    ensures !IsSpace(c)
  {
  }

  /** Whitespace around a stripped text is what `strip` takes away. */
  lemma StripBetweenBlanks(outer: string, line: string)
    requires IsBlank(outer) && |line| > 0 && IsStripped(line)
    ensures Strip(outer + line + outer) == line
  {
    assert outer + line + outer == outer + (line + outer);
    assert (line + outer)[0] == line[0];
    LStripOfBlankPrefix(outer, line + outer);
    RStripOfBlankSuffix(line, outer);
  }

  lemma {:induction false} RStripOfBlankSuffix(rest: string, gap: string)
    requires IsBlank(gap) && (rest == [] || !IsSpace(rest[|rest| - 1]))
    ensures RStrip(rest + gap) == rest
    decreases |gap|
  {
    if |gap| > 0 {
      var g := gap[..|gap| - 1];
      assert (rest + gap)[|rest + gap| - 1] == gap[|gap| - 1];
      assert (rest + gap)[..|rest + gap| - 1] == rest + g;
      assert IsBlank(g) by {
        forall i | 0 <= i < |g| ensures IsSpace(g[i]) {
          assert g[i] == gap[i];
        }
      }
      RStripOfBlankSuffix(rest, g);
    } else {
      assert rest + gap == rest;
    }
  }

  /** For Hindi, a chunk with fewer than five Devanagari characters is rejected, and
      otherwise the language makes no difference. */
  lemma LanguageOnlyCountsScript(chunk: string, language: string)
    ensures IsHindi(language) && DevanagariCount(chunk) < 5 ==> !IsChunkValid(chunk, language)
    ensures !IsHindi(language) || DevanagariCount(chunk) >= 5
            ==> IsChunkValid(chunk, language) == IsChunkValid(chunk, "english")
  {
    assert LowerAscii("english") == "english";
  }
}
