/** `modules/quality_filter.py`: the length ratio, the Devanagari share of a text, the
    ordered validator for an English/Hindi chunk pair, and the score labels. Python's
    floats are modelled by exact reals. */
module QualityFilter {
  import opened Wrappers
  import opened Strings

  /** `calculate_length_ratio(eng, hin)`: Hindi length over English length, 0 for an
      empty English side. */
  function LengthRatio(eng: string, hin: string): (r: real)
    ensures r >= 0.0
    ensures |eng| == 0 ==> r == 0.0
  {
    if |eng| == 0 then 0.0 else (|hin| as real) / (|eng| as real)
  }

  /** A quotient compared with a threshold, without the division. */
  lemma QuotientAtLeast(a: real, b: real, m: real)
    requires b > 0.0
    ensures a / b >= m <==> a >= m * b
    ensures a / b > m <==> a > m * b
  {
    var q := a / b;
    assert q * b == a;
    if q >= m { assert q * b >= m * b; }
    if q > m { assert q * b > m * b; }
    if a >= m * b { assert q * b >= m * b; }
  }

  /** For a non-empty English side the ratio bounds of rule 3 are bounds on the
      lengths: `len(hin)` between a half and three and a half times `len(eng)`. */
  lemma RatioInRange(eng: string, hin: string)
    requires |eng| > 0
    ensures !(LengthRatio(eng, hin) < 0.5 || LengthRatio(eng, hin) > 3.5)
            <==> 2 * |eng| <= 4 * |hin| <= 14 * |eng|
  {
    QuotientAtLeast(|hin| as real, |eng| as real, 0.5);
    QuotientAtLeast(|hin| as real, |eng| as real, 3.5);
  }

  /** `len(text.replace(' ', '').replace('\n', ''))`. */
  function CountedChars(text: string): nat {
    |RemoveChar(RemoveChar(text, ' '), '\n')|
  }

  /** `validate_hindi_script(text, min_percentage)`. */
  predicate ValidateHindiScript(text: string, minPercentage: real)
    ensures ValidateHindiScript(text, minPercentage) ==> CountedChars(text) > 0
    ensures minPercentage <= 0.0 ==> (ValidateHindiScript(text, minPercentage) <==> CountedChars(text) > 0)
  {
    if |text| == 0 then false
    else
      var hindi := DevanagariCount(text);
      var total := CountedChars(text);
      if total == 0 then false
      else (hindi as real) / (total as real) >= minPercentage
  }

  /** The `min_percentage` default. */
  const DefaultMinPercentage := 0.3

  /** Only spaces and newlines are left out of the count. */
  lemma CountedCharsZero(text: string)
    ensures CountedChars(text) == 0
            <==> forall i :: 0 <= i < |text| ==> text[i] == ' ' || text[i] == '\n'
  {
    var once := RemoveChar(text, ' ');
    if CountedChars(text) == 0 {
      forall i | 0 <= i < |text| ensures text[i] == ' ' || text[i] == '\n' {
        RemoveCharMembers(text, ' ', text[i]);
        RemoveCharMembers(once, '\n', text[i]);
      }
    } else {
      var x := RemoveChar(once, '\n')[0];
      RemoveCharMembers(once, '\n', x);
      RemoveCharMembers(text, ' ', x);
    }
  }

  /** At the default threshold the script check holds exactly when the text has a
      counted character and at least three in ten counted characters are Devanagari. */
  lemma ValidateHindiScriptIff(text: string)
    ensures ValidateHindiScript(text, DefaultMinPercentage)
            <==> CountedChars(text) > 0 && 10 * DevanagariCount(text) >= 3 * CountedChars(text)
  {
    var h, t := DevanagariCount(text), CountedChars(text);
    if |text| == 0 {
      assert t == 0;
    } else if t > 0 {
      QuotientAtLeast(h as real, t as real, DefaultMinPercentage);
    }
  }

  /** A text of spaces and newlines only, the empty text included, fails the check
      whatever the threshold. */
  lemma OnlySpacesFail(text: string, minPercentage: real)
    requires forall i :: 0 <= i < |text| ==> text[i] == ' ' || text[i] == '\n'
    ensures !ValidateHindiScript(text, minPercentage)
  {
    CountedCharsZero(text);
  }

  /** A whitespace-only text fails the check at any positive threshold: it holds no
      Devanagari character. */
  lemma BlankFailsScript(text: string, minPercentage: real)
    requires IsBlank(text) && minPercentage > 0.0
    ensures !ValidateHindiScript(text, minPercentage)
  {
    NoDevanagariInBlank(text);
    if CountedChars(text) > 0 {
      QuotientAtLeast(0.0, CountedChars(text) as real, minPercentage);
    }
  }

  lemma {:induction false} NoDevanagariInBlank(text: string)
    requires IsBlank(text)
    ensures DevanagariCount(text) == 0
    decreases |text|
  {
    if |text| > 0 {
      assert IsSpace(text[0]);
      assert IsBlank(text[1..]) by {
        forall i | 0 <= i < |text| - 1 ensures IsSpace(text[1..][i]) {
          assert text[1..][i] == text[i + 1];
        }
      }
      NoDevanagariInBlank(text[1..]);
    }
  }

  /** The second value reported by `is_valid_chunk_pair`. */
  datatype Verdict =
    | EnglishTooShort
    | HindiTooShort
    | EnglishTooLong
    | HindiTooLong
    | RatioOutOfRange(ratio: real)
    | InsufficientHindi
    | MetadataDetected(keyword: string)
    | BlankChunk
    | Pass

  /** The reason string; `ratioText` is the `{ratio:.2f}` rendering of the ratio. */
  function Reason(v: Verdict, ratioText: string): string {
    match v
    case EnglishTooShort => "English chunk too short (<20 chars)"
    case HindiTooShort => "Hindi chunk too short (<20 chars)"
    case EnglishTooLong => "English chunk too long (>1000 chars)"
    case HindiTooLong => "Hindi chunk too long (>1500 chars)"
    case RatioOutOfRange(_) => "Length ratio out of range (" + ratioText + ")"
    case InsufficientHindi => "Insufficient Hindi characters"
    case MetadataDetected(k) => "Metadata detected: " + k
    case BlankChunk => "Empty or whitespace-only chunk"
    case Pass => "PASS"
  }

  /** The keywords of rule 5, in the order they are tried. */
  const MetadataKeywords: seq<string> :=
    ["Reprint 20", "© Wikipedia", "For more details", "Exercise", "Question", "Answer"]

  /** `eng_chunk[:50]`. */
  function Head(eng: string): string {
    if |eng| <= 50 then eng else eng[..50]
  }

  /** The first keyword of `keywords` that occurs in `text`. */
  function FirstKeyword(text: string, keywords: seq<string>): (r: Option<string>)
    ensures r.Some? ==> r.value in keywords && Contains(text, r.value)
    ensures r.None? <==> forall i :: 0 <= i < |keywords| ==> !Contains(text, keywords[i])
  {
    if |keywords| == 0 then None
    else if Contains(text, keywords[0]) then Some(keywords[0])
    else FirstKeyword(text, keywords[1..])
  }

  /** `is_valid_chunk_pair(eng, hin)`: the first rule that fails, or `Pass`. */
  function ValidateChunkPair(eng: string, hin: string): (v: Verdict)
    ensures v.Pass? ==> && 20 <= |eng| <= 1000 && 20 <= |hin| <= 1500
                        && 0.5 <= LengthRatio(eng, hin) <= 3.5
                        && ValidateHindiScript(hin, DefaultMinPercentage)
                        && FirstKeyword(Head(eng), MetadataKeywords).None?
                        && !IsBlank(eng) && !IsBlank(hin)
  {
    if |eng| < 20 then EnglishTooShort
    else if |hin| < 20 then HindiTooShort
    else if |eng| > 1000 then EnglishTooLong
    else if |hin| > 1500 then HindiTooLong
    else if LengthRatio(eng, hin) < 0.5 || LengthRatio(eng, hin) > 3.5 then
      RatioOutOfRange(LengthRatio(eng, hin))
    else if !ValidateHindiScript(hin, DefaultMinPercentage) then InsufficientHindi
    else if FirstKeyword(Head(eng), MetadataKeywords).Some? then
      MetadataDetected(FirstKeyword(Head(eng), MetadataKeywords).value)
    else if Strip(eng) == [] || Strip(hin) == [] then BlankChunk
    else Pass
  }

  /** The first value of the returned tuple. */
  predicate IsValid(eng: string, hin: string) {
    ValidateChunkPair(eng, hin).Pass?
  }

  /** Rule `n` of the eight, numbered from 0 in the order the validator tries them,
      rejects the pair. */
  predicate Fails(n: nat, eng: string, hin: string) {
    match n
    case 0 => |eng| < 20
    case 1 => |hin| < 20
    case 2 => |eng| > 1000
    case 3 => |hin| > 1500
    case 4 => LengthRatio(eng, hin) < 0.5 || LengthRatio(eng, hin) > 3.5
    case 5 => !ValidateHindiScript(hin, DefaultMinPercentage)
    case 6 => exists i :: 0 <= i < |MetadataKeywords| && Contains(Head(eng), MetadataKeywords[i])
    case 7 => IsBlank(eng) || IsBlank(hin)
    case _ => false
  }

  /** The rule a rejection reports. */
  function RuleOf(v: Verdict): nat {
    match v
    case EnglishTooShort => 0
    case HindiTooShort => 1
    case EnglishTooLong => 2
    case HindiTooLong => 3
    case RatioOutOfRange(_) => 4
    case InsufficientHindi => 5
    case MetadataDetected(_) => 6
    case BlankChunk => 7
    case Pass => 8
  }

  /** Rule 5 as the validator tests it. */
  lemma KeywordRule(eng: string, hin: string)
    ensures Fails(6, eng, hin) <==> FirstKeyword(Head(eng), MetadataKeywords).Some?
  {
    var r := FirstKeyword(Head(eng), MetadataKeywords);
    if r.Some? {
      var i :| 0 <= i < |MetadataKeywords| && MetadataKeywords[i] == r.value;
    }
  }

  /** Rule 6 as the validator tests it. */
  lemma BlankRule(eng: string, hin: string)
    ensures Fails(7, eng, hin) <==> Strip(eng) == [] || Strip(hin) == []
  {
    BlankRuleIsBlank(eng, hin);
    StripEmptyIffBlank(eng);
    StripEmptyIffBlank(hin);
  }

  lemma BlankRuleIsBlank(eng: string, hin: string)
    ensures Fails(7, eng, hin) <==> IsBlank(eng) || IsBlank(hin)
  {
  }

  /** The validator reports the first failing rule: the rule it names fails and every
      earlier one holds. */
  lemma FirstFailingRule(eng: string, hin: string)
    ensures var v := ValidateChunkPair(eng, hin);
      && (!v.Pass? ==> Fails(RuleOf(v), eng, hin))
      && (forall n: nat :: n < RuleOf(v) ==> !Fails(n, eng, hin))
  {
    KeywordRule(eng, hin);
    BlankRule(eng, hin);
  }

  /** A pair passes exactly when none of the eight rules rejects it. */
  lemma PassIffNoRuleFails(eng: string, hin: string)
    ensures IsValid(eng, hin) <==> forall n: nat :: n < 8 ==> !Fails(n, eng, hin)
  {
    FirstFailingRule(eng, hin);
  }

  /** A passing pair has both lengths and the ratio inside their bounds. */
  lemma PassBounds(eng: string, hin: string)
    requires IsValid(eng, hin)
    ensures 20 <= |eng| <= 1000 && 20 <= |hin| <= 1500
    ensures 0.5 <= LengthRatio(eng, hin) <= 3.5
    ensures 2 * |eng| <= 4 * |hin| <= 14 * |eng|
    ensures ValidateHindiScript(hin, DefaultMinPercentage)
  {
    RatioInRange(eng, hin);
  }

  /** A blank Hindi side never gets as far as the blank rule: the script rule rejects
      it first, so `BlankChunk` reports a whitespace-only English side. */
  lemma BlankRuleIsEnglish(eng: string, hin: string)
    requires ValidateChunkPair(eng, hin) == BlankChunk
    ensures IsBlank(eng) && !IsBlank(hin)
  {
    BlankVerdict(eng, hin);
    StripEmptyIffBlank(eng);
    StripEmptyIffBlank(hin);
    if IsBlank(hin) {
      BlankFailsScript(hin, DefaultMinPercentage);
    }
  }

  lemma BlankVerdict(eng: string, hin: string)
    requires ValidateChunkPair(eng, hin) == BlankChunk
    ensures ValidateHindiScript(hin, DefaultMinPercentage) && (Strip(eng) == [] || Strip(hin) == [])
  {
  }

  /** The label of `get_quality_label(score)`. */
  datatype Label = Poor | Fair | Good | Excellent

  function LabelName(l: Label): string {
    match l
    case Excellent => "EXCELLENT"
    case Good => "GOOD"
    case Fair => "FAIR"
    case Poor => "POOR"
  }

  function Rank(l: Label): nat {
    match l
    case Poor => 0
    case Fair => 1
    case Good => 2
    case Excellent => 3
  }

  /** `get_quality_label(score)`. */
  function QualityLabel(score: real): (l: Label)
    ensures l == Excellent <==> score >= 0.85
    ensures l == Good <==> 0.70 <= score < 0.85
    ensures l == Fair <==> 0.50 <= score < 0.70
    ensures l == Poor <==> score < 0.50
  {
    if score >= 0.85 then Excellent
    else if score >= 0.70 then Good
    else if score >= 0.50 then Fair
    else Poor
  }

  /** A higher score never gets a lower label. */
  lemma LabelMonotone(a: real, b: real)
    requires a <= b
    ensures Rank(QualityLabel(a)) <= Rank(QualityLabel(b))
  {
  }
}
